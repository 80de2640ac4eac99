/** The write-ahead ingester (crates/io/src/ingest.rs): records are validated,
    batched, journaled under one barrier and then applied. The contracts speak
    of the view, which is the concepts and edges the graph would hold if every
    accepted record had been applied on arrival. */
module Ingest {
  import opened Collections
  import opened Text
  import opened Errors
  import opened OntologySchema
  import opened GraphState
  import opened StateLaws
  import opened BatchLaws
  import opened IngestState
  import opened SessionLaws
  import opened UpsertLaws
  import opened AbsorbLaws
  import opened Arrival
  import opened Consistency
  import opened Engine
  import opened Deletion
  import opened Pruning
  import opened Recovery

  /** Applying an admitted batch cannot fail. */
  method ApplyConcepts(graph: OntologyGraph, batch: seq<Concept>)
    requires graph.Valid() && ConceptsPending(graph.st, batch)
    modifies graph`st, graph`ix
    ensures graph.Valid() && graph.st == AppliedAll(old(graph.st), batch)
  {
    var i := 0;
    while i < |batch|
      invariant i <= |batch| && graph.Valid() && ConceptsPending(graph.st, batch[i..])
      invariant AppliedAll(graph.st, batch[i..]) == AppliedAll(old(graph.st), batch)
    {
      BatchStep(graph.st, batch[i..]);
      assert batch[i..][1..] == batch[i + 1..];
      var applied := graph.ApplyPreparedConcept(batch[i]);
      assert applied.Ok?;
      i := i + 1;
    }
  }

  /** Neither can applying a relation batch. */
  method ApplyRelations(graph: OntologyGraph, batch: seq<Relation>)
    requires graph.Valid() && RelationsPending(graph.st, batch)
    modifies graph`st, graph`ix
    ensures graph.Valid() && graph.st == LinkedAll(old(graph.st), batch)
  {
    var i := 0;
    while i < |batch|
      invariant i <= |batch| && graph.Valid() && RelationsPending(graph.st, batch[i..])
      invariant LinkedAll(graph.st, batch[i..]) == LinkedAll(old(graph.st), batch)
    {
      FlushStep(graph.st, batch[i..]);
      assert Flushable(graph.st, batch[i..][0]);
      assert batch[i..][1..] == batch[i + 1..];
      var applied := graph.ApplyPreparedRelation(batch[i]);
      assert applied.Ok?;
      i := i + 1;
    }
  }

  method ApplyUpdates(graph: OntologyGraph, batch: seq<Relation>)
    requires graph.Valid() && UpdatesPending(graph.st, batch)
    modifies graph`st
    ensures graph.Valid() && graph.st == UpdatedAll(old(graph.st), batch)
  {
    var i := 0;
    while i < |batch|
      invariant i <= |batch| && graph.Valid() && UpdatesPending(graph.st, batch)
      invariant UpdatedAll(graph.st, batch[i..]) == UpdatedAll(old(graph.st), batch)
    {
      assert batch[i].id in graph.st.relations;
      UpdatedShape(graph.st, batch[i]);
      UpdatesStayPending(graph.st, GraphState.ApplyRelationUpdate(graph.st, batch[i]).0, batch);
      assert batch[i..][1..] == batch[i + 1..];
      var applied := graph.ApplyRelationUpdate(batch[i]);
      assert applied.Ok?;
      i := i + 1;
    }
  }

  class Ingester {
    const graph: OntologyGraph
    const store: LogStore
    const opts: Options
    var s: Session

    /** A restart may find another graph. */
    ghost var astray: bool

    ghost predicate Valid()
      reads this`s, graph, store
    {
      graph.Valid() && WellOrdered(graph.st) && SessionOk(graph.st, store.log, s)
    }

    /** Memory and disk in step: a restart finds the graph as it is now. */
    ghost predicate InStep()
      reads this`astray, graph, store
    {
      Backed(graph.st, store.log, astray)
    }

    /** The relation types are those of the journal, and nothing went astray:
        so it stays. */
    twostate predicate Calm()
      reads this`astray, graph, store
    {
      old(!astray && SameTypes(graph.st, store.log)) ==> !astray && SameTypes(graph.st, store.log)
    }

    /** Neither restored edges nor restored ids are lost. */
    twostate predicate Restorable()
      reads graph, store
    {
      StaysRestored(old(graph.st), old(store.log), graph.st, store.log)
    }

    /** Nothing was staged, journaled or applied. */
    twostate predicate Untouched()
      reads this, graph, store
    {
      s == old(s) && graph.st == old(graph.st) && store.log == old(store.log)
    }

    /** A store without a failure to come stays so, and loses no barrier. */
    twostate predicate Steady(lost: bool)
      reads store
    {
      old(store.outcomes) == [] ==> store.outcomes == [] && !lost
    }

    /** Whatever was applied was journaled. */
    twostate predicate Ahead()
      reads this, graph, store
    {
      WrittenAhead(old(graph.st), old(s), |old(store.log)|, graph.st, s, |store.log|)
    }

    constructor (graph: OntologyGraph, store: LogStore, opts: Options)
      requires graph.Valid() && SchemaSound(graph.st) && LastSchema(store.log) == Some(graph.st.schema)
      ensures this.graph == graph && this.store == store && this.opts == opts && s == NEW_SESSION
      ensures Valid() && (astray <==> !Recovers(graph.st, store.log))
    {
      this.graph, this.store, this.opts, s, astray := graph, store, opts, NEW_SESSION, !Recovers(graph.st, store.log);
    }

    // ---------- barriers ----------

    method FlushSchema() returns (r: Ingested<()>)
      requires Valid()
      modifies this`s, store
      ensures Valid() && (r.Done? <==> !s.schemaDirty) && (r.Failed? ==> r.error.StoreFailure?)
      ensures s == if r.Done? then old(s).(schemaDirty := false, baseline := s.baseline) else old(s)
      ensures store.log == if old(s).schemaDirty && r.Done? then old(store.log) + [OntologyLog(graph.st.schema)] else old(store.log)
      ensures old(InStep()) ==> InStep()
      ensures !old(s).schemaDirty ==> r.Done? && Untouched()
      ensures Steady(r.Failed?)
      ensures Restorable()
      ensures Calm()
    {
      hide Backed, Restored, RestoredById;
      if !s.schemaDirty { return Done(()); }
      var ok := store.Append([OntologyLog(graph.st.schema)]);
      if !ok { return Failed(StoreFailure); }
      SchemaFlushedOk(graph.st, old(store.log), s);
      SchemaBacked(graph.st, old(store.log), s, astray);
      s := s.(schemaDirty := false, baseline := None);
      return Done(());
    }

    /** One barrier for the concept batch. */
    method CommitConcepts() returns (r: Ingested<()>)
      requires Valid() && !s.schemaDirty && s.pending != []
      modifies this`s, store, graph`st, graph`ix
      ensures Valid() && (r.Failed? ==> r.error.StoreFailure? && graph.st == old(graph.st))
      ensures r.Done? ==> s.pending == [] && graph.st.concepts == old(ConceptView(graph.st, s))
      ensures SameButConcepts(old(graph.st), graph.st)
      ensures s == old(s).(pending := s.pending, pendingNames := s.pendingNames)
      ensures r.Done? ==> Keeps(old(graph.st), old(s), graph.st, s)
      ensures old(InStep()) ==> InStep()
      ensures r.Done? ==> |store.log| > |old(store.log)|
      ensures Steady(r.Failed?)
      ensures Restorable()
      ensures r.Done? ==> store.log == old(store.log) + ConceptRecords(old(s).pending)
      ensures Calm()
    {
      hide Backed, Restored, RestoredById;
      var batch := s.pending;
      ConceptsTakenOk(graph.st, store.log, s);
      s := s.(pending := [], pendingNames := map[]);
      ghost var log := store.log;
      var ok := store.Append(ConceptRecords(batch));
      if !ok { return Failed(StoreFailure); }
      LoggedOk(graph.st, log, s, ConceptRecords(batch));
      ConceptsBacked(graph.st, log, s, batch, astray);
      AppliedAllOk(graph.st, store.log, s, batch);
      ApplyConcepts(graph, batch);
      SettledKeeps(old(graph.st), old(s), graph.st, s);
      return Done(());
    }

    /** Journal pending schema and concepts, then apply the concepts. */
    method SettleConcepts() returns (r: Ingested<()>)
      requires Valid()
      modifies this`s, store, graph`st, graph`ix
      ensures Valid() && (r.Failed? ==> r.error.StoreFailure? && graph.st == old(graph.st))
      ensures r.Done? ==> !s.schemaDirty && s.pending == [] && graph.st.concepts == old(ConceptView(graph.st, s))
      ensures SameButConcepts(old(graph.st), graph.st)
      ensures s == old(s).(pending := s.pending, pendingNames := s.pendingNames, schemaDirty := s.schemaDirty, baseline := s.baseline)
      ensures old(InStep()) ==> InStep()
      ensures r.Done? ==> Keeps(old(graph.st), old(s), graph.st, s)
      ensures !old(s).schemaDirty && old(s).pending == [] ==> r.Done? && Untouched()
      ensures r.Done? ==> Ahead()
      ensures Steady(r.Failed?)
      ensures old(s.pending == []) ==> graph.st == old(graph.st) && s.pending == []
      ensures Calm()
    {
      hide Backed, SameTypes, StaysRestored;
      r := FlushSchema();
      if r.Failed? { return; }
      ghost var s1 := s;
      IdleKeeps(graph.st, old(s), s1);
      if s.pending == [] { return; }
      r := CommitConcepts();
      if r.Done? { KeepsOnward(old(graph.st), old(s), old(graph.st), s1, graph.st, s); }
    }

    /** Journal the relation batch under one barrier, then apply it. */
    method FlushRelations() returns (r: Ingested<()>)
      requires Valid()
      modifies this`s, store, graph`st, graph`ix
      ensures Valid() && s == old(s).(pendingRelations := [])
      ensures r.Failed? ==> r.error.StoreFailure? && graph.st == old(graph.st)
      ensures r.Done? ==> Edges(graph.st) == old(EdgeView(graph.st, s))
      ensures SameButEdges(old(graph.st), graph.st)
      ensures old(InStep()) ==> InStep()
      ensures r.Done? ==> Keeps(old(graph.st), old(s), graph.st, s)
      ensures old(s).pendingRelations == [] ==> r.Done? && Untouched()
      ensures r.Done? ==> Ahead()
      ensures Steady(r.Failed?)
      ensures store.log == if r.Done? then old(store.log) + RelationRecords(old(s).pendingRelations) else old(store.log)
      ensures old(Restored(graph.st, store.log)) ==> Restored(graph.st, store.log)
      ensures r.Done? && old(RestoredById(graph.st, store.log)) ==>
        (RestoredById(graph.st, store.log) <==> BatchKeepsIds(old(graph.st), old(store.log), old(s).pendingRelations))
      ensures Calm()
    {
      hide Backed, Restored, RestoredById;
      if s.pendingRelations == [] {
        NoneKeepIds(graph.st, store.log);
        IdleKeeps(graph.st, s, s);
        return Done(());
      }
      var batch := s.pendingRelations;
      RelationsTakenOk(graph.st, store.log, s);
      s := s.(pendingRelations := []);
      ghost var log := store.log;
      var ok := store.Append(RelationRecords(batch));
      if !ok { return Failed(StoreFailure); }
      LoggedOk(graph.st, log, s, RelationRecords(batch));
      RelationsBacked(graph.st, log, old(s), astray);
      LinkedAllOk(graph.st, store.log, s, batch);
      LinkedKeeps(graph.st, old(s));
      ApplyRelations(graph, batch);
      return Done(());
    }

    /** Journal the relation updates under one barrier, then apply them. */
    method FlushUpdates() returns (r: Ingested<()>)
      requires Valid()
      modifies this, store, graph`st
      ensures Valid() && s == old(s).(pendingUpdates := [])
      ensures r.Failed? ==> r.error.StoreFailure? && graph.st == old(graph.st)
      ensures SameShape(old(graph.st), graph.st) && graph.st.order == old(graph.st).order
      ensures graph.st.nextConcept == old(graph.st).nextConcept
      ensures old(s).pendingUpdates == [] ==> graph.st == old(graph.st)
      ensures old(InStep()) ==> InStep()
      ensures r.Done? ==> Keeps(old(graph.st), old(s), graph.st, s)
      ensures old(s).pendingUpdates == [] ==> r.Done? && Untouched()
      ensures r.Done? ==> Ahead()
      ensures Steady(r.Failed?)
      ensures store.log == if r.Done? then old(store.log) + UpdateRecords(old(s).pendingUpdates) else old(store.log)
      ensures astray <==> old(astray) || (r.Done? && Turns(old(graph.st), old(store.log), old(s).pendingUpdates))
      ensures old(RestoredById(graph.st, store.log) && !Turns(graph.st, store.log, s.pendingUpdates)) ==> RestoredById(graph.st, store.log)
      ensures Calm()
    {
      hide Backed, RestoredById, Restored, Consistent, Keeps, WellFormed, SchemaSound, SchemaSync, ConceptsPending, NamesPending, RelationsPending, RelationsDue, BelowWatermark, UpdatesPending;
      if s.pendingUpdates == [] {
        IdleKeeps(graph.st, s, s);
        return Done(());
      }
      var batch := s.pendingUpdates;
      UpdatesTakenOk(graph.st, store.log, s);
      s := s.(pendingUpdates := []);
      ghost var log := store.log;
      var ok := store.Append(UpdateRecords(batch));
      if !ok { return Failed(StoreFailure); }
      LoggedOk(graph.st, log, s, UpdateRecords(batch));
      UpdatesBacked(graph.st, log, s, batch, astray);
      astray := astray || Turns(graph.st, log, batch);
      UpdatedAllOk(graph.st, store.log, s, batch);
      UpdatedKeeps(graph.st, old(s));
      ApplyUpdates(graph, batch);
      return Done(());
    }

    /** The durability barrier. */
    method Flush() returns (r: Ingested<()>)
      requires Valid()
      modifies this, store, graph`st, graph`ix
      ensures Valid() && (r.Failed? ==> r.error.StoreFailure?) && graph.st.schema == old(graph.st).schema
      ensures r.Done? ==> !s.schemaDirty && NothingPending(s) && graph.st.concepts == old(ConceptView(graph.st, s))
      ensures r.Done? && old(s).pendingUpdates == [] ==> Edges(graph.st) == old(EdgeView(graph.st, s))
      ensures old(s).pendingRelations == [] ==> s.pendingRelations == []
      ensures old(s).pendingUpdates == [] ==> s.pendingUpdates == []
      ensures SameProgress(old(s), s)
      ensures old(InStep()) ==> InStep()
      ensures r.Done? ==> Keeps(old(graph.st), old(s), graph.st, s)
      ensures old(NothingPending(s) && !s.schemaDirty) ==> r.Done? && Untouched()
      ensures r.Done? ==> Ahead()
      ensures Steady(r.Failed?)
      ensures old(NothingPending(s)) ==> graph.st == old(graph.st) && NothingPending(s)
      ensures Calm()
    {
      hide Consistent, WellFormed, Keeps, LinkSays, Backed, SameTypes, StaysRestored;
      r := SettleConcepts();
      if r.Failed? { return; }
      ghost var st1, s1 := graph.st, s;
      r := FlushRelations();
      if r.Failed? { return; }
      KeepsOnward(old(graph.st), old(s), st1, s1, graph.st, s);
      ghost var st2, s2 := graph.st, s;
      r := FlushUpdates();
      if r.Done? { KeepsOnward(old(graph.st), old(s), st2, s2, graph.st, s); }
    }

    /** The concept batch settled if anything waits; a run of type
        declarations costs no barrier. */
    method SettlePending() returns (r: Ingested<()>)
      requires Valid()
      modifies this, store, graph`st, graph`ix
      ensures Valid() && (r.Failed? ==> r.error.StoreFailure?) && graph.st.schema == old(graph.st).schema
      ensures r.Done? ==> NothingPending(s) && graph.st.concepts == old(ConceptView(graph.st, s))
      ensures r.Done? && old(s).pendingUpdates == [] ==> Edges(graph.st) == old(EdgeView(graph.st, s))
      ensures SameProgress(old(s), s)
      ensures old(InStep()) ==> InStep()
      ensures r.Done? ==> Keeps(old(graph.st), old(s), graph.st, s)
      ensures r.Done? ==> Ahead()
      ensures Steady(r.Failed?)
      ensures old(NothingPending(s)) ==> graph.st == old(graph.st) && NothingPending(s)
      ensures Calm()
    {
      hide Backed, SameTypes, StaysRestored;
      if s.pending == [] && s.pendingRelations == [] && s.pendingUpdates == [] {
        IdleKeeps(graph.st, s, s);
        return Done(());
      }
      r := Flush();
    }

    // ---------- concepts ----------

    /** A collision with the batch, which the graph cannot see yet: a pending
        concept of that name under another id, or of a disjoint type. */
    method CheckPendingConflicts(c: Concept) returns (r: Option<GraphError>)
      requires Valid()
      ensures r.Some? <==> Clashes(graph.st.schema, s.pendingNames, c)
      ensures r.Some? ==> r.value == if KeyOf(c) in s.pendingNames && (c.id == 0 || s.pendingNames[KeyOf(c)] != c.id)
        then DuplicateConcept(c.name, c.ctype) else DisjointTypeViolation(c.ctype)
    {
      if s.pending == [] {
        assert s.pendingNames == map[];
        return None;
      }
      var key := KeyOf(c);
      if key in s.pendingNames && (c.id == 0 || s.pendingNames[key] != c.id) { return Some(DuplicateConcept(c.name, c.ctype)); }
      if exists o :: o in DisjointTypes(graph.st.schema, c.ctype) && (o, Lower(c.name)) in s.pendingNames {
        return Some(DisjointTypeViolation(c.ctype));
      }
      return None;
    }

    /** Admit a concept to the batch, or say why not. */
    method Admit(c: Concept) returns (r: Ingested<nat>)
      requires Valid() && s.pendingRelations == []
      requires c.id != 0 ==> forall i :: 0 <= i < |s.pending| ==> s.pending[i].id != c.id
      modifies this`s, graph`st
      ensures Valid() && graph.st == old(graph.st).(nextConcept := graph.st.nextConcept)
      ensures r.Failed? ==> r.error.GraphFailure? && s == old(s)
      ensures r.Done? ==> ConceptView(graph.st, s) == old(ConceptView(graph.st, s))[r.value := c.(id := r.value)]
      ensures r.Done? && c.id != 0 ==> r.value == c.id
      ensures r.Done? && c.id == 0 ==> r.value !in old(ConceptView(graph.st, s))
      ensures Gives(Admitted(old(graph.st), old(s), c), r, ConceptView(graph.st, s))
      ensures SameProgress(old(s), s) && s.pendingRelations == [] && s.pendingUpdates == old(s).pendingUpdates
      ensures r.Done? && SameName(old(graph.st), c) ==> Keeps(old(graph.st), old(s), graph.st, s)
      ensures r.Done? ==> Ahead()
      ensures old(InStep()) ==> InStep()
      ensures Calm()
    {
      hide SchemaSound, SchemaSync, ConceptsPending, NamesPending, RelationsPending, RelationsDue, BelowWatermark, UpdatesPending, Consistent, WellFormed, Keeps, Backed, SchemaAllows, Find, Recovers;
      var conflict := CheckPendingConflicts(c);
      if conflict.Some? { return Failed(GraphFailure(conflict.value)); }
      PreparedOk(graph.st, store.log, s, c);
      PreparedConceptFrame(graph.st, c);
      PreparedBacked(graph.st, store.log, s, PrepareConcept(graph.st, c).0, astray);
      ghost var st := graph.st;
      var p := graph.PrepareConcept(c);
      if p.Err? { return Failed(GraphFailure(p.error)); }
      NoIdClash(st, s, c);
      StagedOk(st, store.log, s, c);
      StagedView(st, store.log, s, c);
      if SameName(st, c) { StagedKeeps(st, store.log, s, c); }
      s := Staged(s, p.value);
      return Done(p.value.id);
    }

    /** Journal order is arrival order: relations and updates that wait are
        settled before a concept joins the batch. */
    method SettleLinks() returns (r: Ingested<()>)
      requires Valid()
      modifies this, store, graph`st, graph`ix
      ensures Valid() && (r.Failed? ==> r.error.StoreFailure?)
      ensures s == old(s).(pendingRelations := [], pendingUpdates := s.pendingUpdates)
      ensures SameButEdges(old(graph.st), graph.st)
      ensures r.Done? ==> s.pendingUpdates == []
      ensures r.Done? && old(s).pendingUpdates == [] ==> Edges(graph.st) == old(EdgeView(graph.st, s))
      ensures old(InStep()) ==> InStep()
      ensures r.Done? ==> Keeps(old(graph.st), old(s), graph.st, s)
      ensures old(NothingPending(s)) ==> r.Done? && Untouched()
      ensures r.Done? ==> Ahead()
      ensures Steady(r.Failed?)
      ensures Calm()
    {
      hide Backed, SameTypes, StaysRestored;
      r := FlushRelations();
      if r.Failed? { return; }
      ghost var st1, s1 := graph.st, s;
      r := FlushUpdates();
      if r.Done? { KeepsOnward(old(graph.st), old(s), st1, s1, graph.st, s); }
    }

    /** An id that is already pending is settled first, so that the comparison
        sees the latest version and the last record wins. */
    method SettleId(id: nat) returns (r: Ingested<()>)
      requires Valid() && s.pendingRelations == [] && s.pendingUpdates == []
      modifies this, store, graph`st, graph`ix
      ensures Valid() && (r.Failed? ==> r.error.StoreFailure?) && s.pendingRelations == [] && s.pendingUpdates == []
      ensures r.Done? ==> ConceptView(graph.st, s) == old(ConceptView(graph.st, s)) && Edges(graph.st) == old(Edges(graph.st))
      ensures r.Done? && id != 0 ==> forall i :: 0 <= i < |s.pending| ==> s.pending[i].id != id
      ensures r.Done? && id != 0 && IsPending(old(s), id) ==> Emptied(s) && graph.st.concepts == old(ConceptView(graph.st, s))
      ensures !(id != 0 && IsPending(old(s), id)) ==> graph.st == old(graph.st) && s == old(s)
      ensures SameProgress(old(s), s) && graph.st.schema == old(graph.st).schema
      ensures old(InStep()) ==> InStep()
      ensures r.Done? ==> Keeps(old(graph.st), old(s), graph.st, s)
      ensures old(NothingPending(s)) ==> r.Done? && Untouched()
      ensures r.Done? ==> Ahead()
      ensures Steady(r.Failed?)
      ensures Calm()
    {
      hide Backed, SameTypes, StaysRestored;
      if id != 0 && IsPending(s, id) {
        r := Flush();
      } else {
        IdleKeeps(graph.st, s, s);
        r := Done(());
      }
    }

    /** With upsert, the concept of that name if there is one; its id, or the
        explicit one, is no longer pending. */
    method Resolve(c: Concept) returns (r: Ingested<Option<nat>>)
      requires Valid()
      modifies this, store, graph`st, graph`ix
      ensures Valid() && s.pendingRelations == [] && (r.Failed? ==> r.error.StoreFailure?)
      ensures r.Done? ==> s.pendingUpdates == [] && ConceptView(graph.st, s) == old(ConceptView(graph.st, s))
      ensures r.Done? && old(s).pendingUpdates == [] ==> Edges(graph.st) == old(EdgeView(graph.st, s))
      ensures r.Done? && r.value.Some? ==> opts.upsert && c.id == 0 && FoundAs(graph.st, s, c, r.value.value)
      ensures r.Done? ==> NotAmong(s.pending, if r.value.Some? then r.value.value else c.id)
      ensures r.Done? ==> Resolved(opts, old(graph.st), old(s), graph.st, s, c, r.value)
      ensures SameProgress(old(s), s) && graph.st.schema == old(graph.st).schema
      ensures old(InStep()) ==> InStep()
      ensures r.Done? ==> Keeps(old(graph.st), old(s), graph.st, s)
      ensures r.Done? && old(NamesSettled(graph.st, s)) ==> NamedAs(graph.st, r.value, c)
      ensures old(Idle(s)) ==> r.Done? && Untouched()
      ensures old(Idle(s)) && opts.upsert && c.id == 0 ==> r == Done(Find(graph.st, KeyOf(c)))
      ensures r.Done? ==> Ahead()
      ensures Steady(!NotLost(r))
      ensures Calm()
    {
      hide SchemaSound, SchemaSync, ConceptsPending, NamesPending, RelationsPending, BelowWatermark, UpdatesPending, Consistent, Backed, SameTypes, StaysRestored;
      var f := SettleLinks();
      if f.Failed? { return Failed(f.error); }
      var existing := None;
      if opts.upsert && c.id == 0 { existing := graph.FindByName(c.ctype, c.name); }
      var known := if existing.Some? then existing.value else c.id;
      ghost var found, before := graph.st, s;
      f := SettleId(known);
      if f.Failed? { return Failed(f.error); }
      KeepsOnward(old(graph.st), old(s), found, before, graph.st, s);
      if existing.Some? {
        FoundId(found, KeyOf(c), known);
        ExistingKept(found, before, graph.st, s, KeyOf(c), known);
        if old(NamesSettled(graph.st, s)) {
          assert NameSettled(old(graph.st), old(s), known);
          StillNamed(old(graph.st), old(s), found, before, graph.st, s, KeyOf(c), known);
        }
      }
      return Done(existing);
    }

    /** Merge with the concept found, skip it when unchanged, else admit. */
    method StageResolved(c: Concept, existing: Option<nat>) returns (r: Ingested<nat>)
      requires Valid() && s.pendingRelations == [] && NotAmong(s.pending, if existing.Some? then existing.value else c.id)
      requires existing.Some? ==> opts.upsert && c.id == 0 && FoundAs(graph.st, s, c, existing.value)
      modifies this`s, graph`st
      ensures Valid() && graph.st == old(graph.st).(nextConcept := graph.st.nextConcept)
      ensures r.Failed? ==> r.error.GraphFailure? && s == old(s)
      ensures Gives(Merged(opts, old(graph.st), old(s), c, existing), r, ConceptView(graph.st, s))
      ensures SameProgress(old(s), s) && s.pendingRelations == [] && s.pendingUpdates == old(s).pendingUpdates
      ensures r.Done? && c.id == 0 && NamedAs(old(graph.st), existing, c) ==> Keeps(old(graph.st), old(s), graph.st, s)
      ensures existing.Some? && AlreadySaid(opts, old(graph.st).concepts[existing.value], c) ==> r == Done(existing.value) && s == old(s) && graph.st == old(graph.st)
      ensures r.Done? && c.id == 0 && r.value in old(ConceptView(graph.st, s)) ==> existing == Some(r.value)
      ensures r.Done? ==> Ahead()
      ensures old(InStep()) ==> InStep()
      ensures Calm()
    {
      hide SessionOk, Backed, SameTypes, StaysRestored;
      if existing.None? {
        r := Admit(c);
        return;
      }
      var prev := graph.st.concepts[existing.value];
      var staged := Refreshed(opts, prev, c);
      if prev.name == staged.name && prev.description == staged.description && prev.properties == staged.properties {
        assert prev == staged.(id := existing.value);
        return Done(existing.value);
      }
      r := Admit(staged.(id := existing.value));
    }

    /** A full concept batch is flushed. */
    method FlushFull() returns (r: Ingested<()>)
      requires Valid() && s.pendingRelations == [] && s.pendingUpdates == []
      modifies this, store, graph`st, graph`ix
      ensures Valid() && (r.Failed? ==> r.error.StoreFailure?) && s.pendingRelations == [] && s.pendingUpdates == []
      ensures r.Done? ==> ConceptView(graph.st, s) == old(ConceptView(graph.st, s)) && Edges(graph.st) == old(Edges(graph.st))
      ensures SameProgress(old(s), s) && graph.st.schema == old(graph.st).schema
      ensures old(InStep()) ==> InStep()
      ensures r.Done? ==> Keeps(old(graph.st), old(s), graph.st, s)
      ensures old(s.pending == []) ==> r.Done? && Untouched()
      ensures r.Done? ==> Ahead()
      ensures Steady(!NotLost(r))
      ensures Calm()
    {
      hide Backed, SameTypes, StaysRestored;
      if |s.pending| >= INGEST_BATCH_SIZE {
        r := Flush();
      } else {
        IdleKeeps(graph.st, s, s);
        r := Done(());
      }
    }

    method NoteSeen(id: nat)
      requires Valid()
      modifies this`s
      ensures Valid() && s == old(s).(seenConcepts := old(s).seenConcepts + (if opts.prune then {id} else {}))
      ensures !opts.prune ==> s == old(s)
    {
      hide Backed, SameTypes, StaysRestored;
      SeenOk(graph.st, store.log, s, s.seenConcepts + {id});
      if opts.prune { s := s.(seenConcepts := s.seenConcepts + {id}); }
    }

    method StageNoted(c: Concept, existing: Option<nat>) returns (r: Ingested<nat>)
      requires Valid() && s.pendingRelations == [] && NotAmong(s.pending, if existing.Some? then existing.value else c.id)
      requires existing.Some? ==> opts.upsert && c.id == 0 && FoundAs(graph.st, s, c, existing.value)
      modifies this`s, graph`st
      ensures Valid() && graph.st == old(graph.st).(nextConcept := graph.st.nextConcept)
      ensures r.Failed? ==> r.error.GraphFailure? && s == old(s)
      ensures Gives(Merged(opts, old(graph.st), old(s), c, existing), r, ConceptView(graph.st, s))
      ensures r.Done? ==> s.seenConcepts == old(s).seenConcepts + (if opts.prune then {r.value} else {})
      ensures SameProgress(old(s).(seenConcepts := s.seenConcepts), s)
      ensures s.pendingRelations == [] && s.pendingUpdates == old(s).pendingUpdates
      ensures r.Done? && c.id == 0 && NamedAs(old(graph.st), existing, c) ==> Keeps(old(graph.st), old(s), graph.st, s)
      ensures r.Done? && c.id == 0 && r.value in old(ConceptView(graph.st, s)) ==> existing == Some(r.value)
      ensures existing.Some? && AlreadySaid(opts, old(graph.st).concepts[existing.value], c) && !opts.prune ==>
        r == Done(existing.value) && s == old(s) && graph.st == old(graph.st)
      ensures graph.st.concepts == old(graph.st).concepts
      ensures r.Done? ==> Ahead()
      ensures old(InStep()) ==> InStep()
      ensures Calm()
      ensures Edges(graph.st) == old(Edges(graph.st)) && LinksOf(graph.st, s) == old(LinksOf(graph.st, s))
      ensures r.Failed? ==> ConceptView(graph.st, s) == old(ConceptView(graph.st, s))
    {
      hide Backed, SameTypes, StaysRestored;
      r := StageResolved(c, existing);
      ghost var st1, s1 := graph.st, s;
      if r.Done? {
        NoteSeen(r.value);
        IdleKeeps(st1, s1, s);
        if c.id == 0 && NamedAs(old(graph.st), existing, c) { KeepsOnward(old(graph.st), old(s), st1, s1, graph.st, s); }
      }
    }

    method StageRecord(c: Concept) returns (r: Ingested<nat>)
      requires Valid()
      modifies this, store, graph`st, graph`ix
      ensures Valid() && s.pendingRelations == [] && graph.st.schema == old(graph.st).schema
      ensures NotLost(r) ==> StagedAs(opts, old(graph.st), old(s), graph.st, s, c, r)
      ensures NotLost(r) && r.Failed? ==> ConceptView(graph.st, s) == old(ConceptView(graph.st, s))
      ensures NotLost(r) && old(s).pendingUpdates == [] ==> Edges(graph.st) == old(EdgeView(graph.st, s))
      ensures NotLost(r) ==> s.pendingUpdates == []
      ensures r.Done? ==> s.seenConcepts == old(s).seenConcepts + (if opts.prune then {r.value} else {})
      ensures SameProgress(old(s).(seenConcepts := s.seenConcepts), s)
      ensures old(InStep()) ==> InStep()
      ensures old(Idle(s)) && opts.upsert && !opts.prune && old(ConceptAbsorbed(opts, graph.st.concepts, c)) ==> r.Done? && Untouched()
      ensures r.Failed? ==> !r.error.PruneRefused?
      ensures r.Done? ==> Ahead()
      ensures Steady(!NotLost(r))
      ensures Calm()
    {
      hide SessionOk, Consistent, WellFormed, Keeps, Merged, StagedAs, ConceptAbsorbed, LinkSays, NamesSettled, WrittenAhead, Resolved, SchemaAllows, Find, WellOrdered, Backed, SameTypes, NamedAs, AlreadySaid, Edges, LinksOf, ConceptView;
      var existing := Resolve(c);
      if existing.Failed? { return Failed(existing.error); }
      ghost var st1, s1 := graph.st, s;
      if old(ConceptAbsorbed(opts, graph.st.concepts, c)) { AbsorbedHere(opts, old(graph.st), old(store.log), old(s), c); }
      ghost var log := store.log;
      r := StageNoted(c, existing.value);
      ProgressOnward(old(s), s1, s);
      assert StagedAs(opts, old(graph.st), old(s), graph.st, s, c, r) by {
        StagedAfter(opts, old(graph.st), old(store.log), old(s), st1, s1, graph.st, s, c, existing.value, r);
      }
      if r.Done? {
        assert Ahead() by { AheadOnward(old(graph.st), old(s), |old(store.log)|, st1, s1, |log|, graph.st, s, |log|); }
      }
    }

    /** Stage one concept record; `id` is the id it was staged, or found
        unchanged, under. The view takes it as an upsert on arrival. */
    method StageConcept(c: Concept) returns (r: Ingested<()>, ghost id: nat)
      requires Valid()
      modifies this, store, graph`st, graph`ix
      ensures Valid() && s.pendingRelations == [] && graph.st.schema == old(graph.st).schema
      ensures NotLost(r) ==> Answers(Staging(opts, old(graph.st), old(s), c), r, id, ConceptView(graph.st, s))
      ensures NotLost(r) && Unhindered(opts, old(graph.st), old(s), c) ==>
        Answers(Arrive(opts, ViewState(old(graph.st), old(s)), c), r, id, ConceptView(graph.st, s))
      ensures r.Done? ==> StagedInto(opts, old(graph.st), old(s), ConceptView(graph.st, s), c, id)
      ensures r.Done? ==> NamesKept(old(graph.st), old(s), graph.st, s, c.id)
      ensures NotLost(r) && r.Failed? ==> ConceptView(graph.st, s) == old(ConceptView(graph.st, s))
      ensures NotLost(r) && old(s).pendingUpdates == [] ==> Edges(graph.st) == old(EdgeView(graph.st, s))
      ensures NotLost(r) ==> s.pendingUpdates == []
      ensures r.Done? ==> s.seenConcepts == old(s).seenConcepts + (if opts.prune then {id} else {})
      ensures SameProgress(old(s).(seenConcepts := s.seenConcepts), s)
      ensures old(InStep()) ==> InStep()
      ensures r.Done? && c.id == 0 && old(NamesSettled(graph.st, s)) ==> Keeps(old(graph.st), old(s), graph.st, s)
      ensures old(Idle(s)) && opts.upsert && !opts.prune && old(ConceptAbsorbed(opts, graph.st.concepts, c)) ==> r.Done? && Untouched()
      ensures r.Done? ==> EdgesKept(old(graph.st), old(s), graph.st, s)
      ensures r.Failed? ==> !r.error.PruneRefused?
      ensures r.Done? ==> Ahead()
      ensures Steady(!NotLost(r))
      ensures r.Done? ==> TakenAs(opts, old(ConceptView(graph.st, s)), ConceptView(graph.st, s), c, id)
      ensures r.Done? && opts.upsert && !opts.prune && c.id == 0 && old(Idle(s)) ==> FoundOrNew(opts, old(graph.st), c, id, Untouched())
      ensures Calm()
    {
      hide SchemaSound, SchemaSync, ConceptsPending, NamesPending, RelationsPending, BelowWatermark, UpdatesPending, Consistent, WellFormed, Keeps, EdgesKept, AspectKept, Staging, Arrive, Unhindered, StagedInto, NamesKept, ConceptAbsorbed, Backed, SameTypes, StaysRestored;
      id := 0;
      ArrivesUnhindered(opts, old(graph.st), old(store.log), old(s), c);
      var staged := StageRecord(c);
      if staged.Failed? { return Failed(staged.error), id; }
      id := staged.value;
      ghost var st1, s1 := graph.st, s;
      r := FlushFull();
      if r.Done? {
        EdgesByKeeps(st1, s1, graph.st, s);
        EdgesOnward(old(graph.st), old(s), st1, s1, graph.st, s);
        NamesOnward(old(graph.st), old(s), st1, s1, graph.st, s, c.id);
      }
      if r.Done? && c.id == 0 && old(NamesSettled(graph.st, s)) { KeepsOnward(old(graph.st), old(s), st1, s1, graph.st, s); }
      StagedMeans(opts, old(graph.st), old(s), ConceptView(graph.st, s), c, id);
      if r.Done? && opts.upsert && !opts.prune && c.id == 0 && old(Idle(s)) {
        FoundIsTaken(opts, old(graph.st), old(store.log), old(s), ConceptView(graph.st, s), c, id);
      }
    }

    // ---------- relations ----------

    /** The relation batch settled early; the view does not move. */
    method SettleRelations() returns (r: Ingested<()>)
      requires Valid()
      modifies this`s, store, graph`st, graph`ix
      ensures Valid() && s == old(s).(pendingRelations := []) && SameButEdges(old(graph.st), graph.st)
      ensures r.Failed? ==> r.error.StoreFailure?
      ensures r.Done? ==> EdgeView(graph.st, s) == old(EdgeView(graph.st, s))
      ensures old(InStep()) ==> InStep()
      ensures r.Done? ==> Keeps(old(graph.st), old(s), graph.st, s)
      ensures r.Done? ==> Ahead()
      ensures Steady(!NotLost(r))
      ensures Calm()
    {
      hide Backed, SameTypes, StaysRestored;
      r := FlushRelations();
    }

    /** Validate a relation against the graph and push it: with no sibling
        pending, the verdict is that of one-at-a-time insertion. */
    method Pend(rel: Relation) returns (r: Ingested<()>)
      requires Valid() && s.pending == [] && !s.schemaDirty && !HasSibling(graph.st.schema, s.pendingRelations, rel)
      requires rel.id != 0 ==> forall i :: 0 <= i < |s.pendingRelations| ==> s.pendingRelations[i].id != rel.id
      modifies this`s, graph`st
      ensures Valid() && s == old(s).(pendingRelations := s.pendingRelations) && SameButEdges(old(graph.st), graph.st)
      ensures Answered(old(graph.st), old(s), graph.st, s, rel, r)
      ensures r.Done? ==> PutFresh(old(graph.st), old(s), graph.st, s, rel)
      ensures r.Done? ==> Ahead()
      ensures old(InStep()) ==> InStep()
      ensures Calm()
    {
      hide SchemaSound, SchemaSync, ConceptsPending, NamesPending, RelationsPending, BelowWatermark, UpdatesPending, Consistent, LinkSays, Absent, WellFormed, Fresh, KeepsBut, Backed, StaysRestored;
      PendVerdict(graph.st, store.log, s, rel);
      ghost var st := graph.st;
      PreparedBacked(st, store.log, s, PrepareRelation(st, rel).0, astray);
      var p := graph.PrepareRelation(rel);
      if p.Err? { return Failed(GraphFailure(p.error)); }
      PendedOk(st, store.log, s, rel);
      s := s.(pendingRelations := s.pendingRelations + [p.value]);
      PendedKeeps(st, old(s), graph.st, s, p.value);
      return Done(());
    }

    /** Whatever would make the batch see a different verdict is settled. */
    method MakeRoom(rel: Relation) returns (r: Ingested<()>)
      requires Valid() && s.pending == [] && !s.schemaDirty
      modifies this`s, store, graph`st, graph`ix
      ensures Valid() && s == old(s).(pendingRelations := s.pendingRelations) && SameButEdges(old(graph.st), graph.st)
      ensures r.Failed? ==> r.error.StoreFailure?
      ensures r.Done? ==> EdgeView(graph.st, s) == old(EdgeView(graph.st, s)) && !HasSibling(graph.st.schema, s.pendingRelations, rel)
      ensures r.Done? && rel.id != 0 ==> forall i :: 0 <= i < |s.pendingRelations| ==> s.pendingRelations[i].id != rel.id
      ensures old(InStep()) ==> InStep()
      ensures r.Done? ==> Keeps(old(graph.st), old(s), graph.st, s)
      ensures r.Done? ==> Ahead()
      ensures Steady(!NotLost(r))
      ensures Calm()
    {
      hide SessionOk, WellFormed, LinkSays, Absent, Fresh, Backed, SameTypes, StaysRestored;
      r := Done(());
      IdleKeeps(graph.st, s, s);
      if rel.id != 0 && exists i :: 0 <= i < |s.pendingRelations| && s.pendingRelations[i].id == rel.id {
        r := SettleRelations();
        if r.Failed? { return; }
      }
      ghost var st1, s1 := graph.st, s;
      if HasSibling(graph.st.schema, s.pendingRelations, rel) {
        r := SettleRelations();
        if r.Done? { KeepsOnward(old(graph.st), old(s), st1, s1, graph.st, s); }
      }
    }

    method MakeReady(rel: Relation) returns (r: Ingested<()>)
      requires Valid()
      modifies this`s, store, graph`st, graph`ix
      ensures Valid() && SameProgress(old(s), s) && s.pendingUpdates == old(s).pendingUpdates
      ensures graph.st.schema == old(graph.st).schema && (r.Failed? ==> r.error.StoreFailure?)
      ensures r.Done? ==> s.pending == [] && !s.schemaDirty && graph.st.concepts == old(ConceptView(graph.st, s))
      ensures r.Done? ==> EdgeView(graph.st, s) == old(EdgeView(graph.st, s)) && !HasSibling(graph.st.schema, s.pendingRelations, rel)
      ensures r.Done? && rel.id != 0 ==> forall i :: 0 <= i < |s.pendingRelations| ==> s.pendingRelations[i].id != rel.id
      ensures old(InStep()) ==> InStep()
      ensures r.Done? ==> Keeps(old(graph.st), old(s), graph.st, s)
      ensures r.Done? ==> Ahead()
      ensures Steady(!NotLost(r))
      ensures Calm()
    {
      hide LinkSays, Absent, Fresh, Backed, SameTypes, StaysRestored;
      r := SettleConcepts();
      if r.Failed? { return; }
      assert EdgeView(graph.st, s) == old(EdgeView(graph.st, s));
      ghost var st1, s1 := graph.st, s;
      r := MakeRoom(rel);
      if r.Done? { KeepsOnward(old(graph.st), old(s), st1, s1, graph.st, s); }
    }

    method PendOrFlush(rel: Relation) returns (r: Ingested<()>)
      requires Valid() && s.pending == [] && !s.schemaDirty && !HasSibling(graph.st.schema, s.pendingRelations, rel)
      requires rel.id != 0 ==> forall i :: 0 <= i < |s.pendingRelations| ==> s.pendingRelations[i].id != rel.id
      modifies this`s, store, graph`st, graph`ix
      ensures Valid() && s == old(s).(pendingRelations := s.pendingRelations) && SameButEdges(old(graph.st), graph.st)
      ensures NotLost(r) ==> Answered(old(graph.st), old(s), graph.st, s, rel, r)
      ensures old(InStep()) ==> InStep()
      ensures r.Done? ==> PutFresh(old(graph.st), old(s), graph.st, s, rel)
      ensures r.Done? ==> Ahead()
      ensures Steady(!NotLost(r))
      ensures Calm()
    {
      hide SessionOk, WellFormed, PutFresh, Backed, SameTypes, StaysRestored;
      r := Pend(rel);
      if r.Done? && |s.pendingRelations| >= INGEST_BATCH_SIZE {
        ghost var st1, s1 := graph.st, s;
        var f := SettleRelations();
        if f.Failed? { return f; }
        FreshThenKept(old(graph.st), old(s), st1, s1, graph.st, s, rel);
      }
    }

    /** One relation record: refused exactly when adding it to the view would
        be, and then by the same error; accepted, the view grows by it and its
        materialised inverse. */
    method AddRelation(rel: Relation) returns (r: Ingested<()>)
      requires Valid()
      modifies this`s, store, graph`st, graph`ix
      ensures Valid() && SameProgress(old(s), s) && s.pendingUpdates == old(s).pendingUpdates
      ensures graph.st.schema == old(graph.st).schema
      ensures NotLost(r) ==> AddedToView(old(graph.st), old(s), graph.st, s, rel, r)
      ensures NotLost(r) ==> ConceptsSettled(old(graph.st), old(s), graph.st, s)
      ensures old(InStep()) ==> InStep()
      ensures r.Done? ==> EdgeAdded(old(graph.st), old(s), graph.st, s, rel)
      ensures r.Failed? ==> !r.error.PruneRefused?
      ensures r.Done? ==> Ahead()
      ensures Steady(!NotLost(r))
      ensures Calm()
    {
      hide SessionOk, WellFormed, PutFresh, HasEdge, EdgesKept, Backed, SameTypes, StaysRestored;
      r := MakeReady(rel);
      if r.Failed? { return; }
      ghost var st1, s1 := graph.st, s;
      r := PendOrFlush(rel);
      if r.Done? {
        AddedEdges(old(graph.st), old(s), graph.st, s, rel);
        KeptThenFresh(old(graph.st), old(s), st1, s1, graph.st, s, rel);
      }
    }

    // ---------- relations of an upsert ----------

    /** A pending addition of this link takes the new values. */
    method RefreshPending(link: EdgeEnds, weight: int, properties: Props) returns (found: bool)
      requires Valid()
      modifies this`s
      ensures Valid() && s == old(s).(pendingRelations := s.pendingRelations) && (!found ==> s == old(s))
      ensures LogEnds(EdgeView(graph.st, s)) == old(LogEnds(EdgeView(graph.st, s)))
      ensures found ==> HasLink(IsSymmetric(graph.st.schema, link.0), old(LogEnds(EdgeView(graph.st, s))), link)
      ensures found ==> Carried(s.pendingRelations, IsSymmetric(graph.st.schema, link.0), link, weight, properties)
      ensures !found ==> forall i :: 0 <= i < |s.pendingRelations| ==>
        !SameLink(IsSymmetric(graph.st.schema, link.0), EndsOf(s.pendingRelations[i]), link)
      ensures found ==> !NoSame(old(s).pendingRelations, IsSymmetric(graph.st.schema, link.0), link)
      ensures Ahead()
    {
      hide SchemaSound, SchemaSync, ConceptsPending, NamesPending, RelationsPending, BelowWatermark, UpdatesPending, Consistent, Backed, SameTypes, StaysRestored;
      var symmetric := IsSymmetric(graph.st.schema, link.0);
      var i := IndexOfLink(s.pendingRelations, symmetric, link);
      if i == |s.pendingRelations| { return false; }
      ResetPendingOk(graph.st, store.log, s, i, weight, properties);
      PendingLink(graph.st, s, i, symmetric, link);
      ResetCarried(s.pendingRelations, i, symmetric, link, weight, properties);
      s := s.(pendingRelations := s.pendingRelations[i := Reset(s.pendingRelations[i], weight, properties)]);
      found := true;
    }

    /** A pending update of this link takes the new values. */
    method RefreshUpdate(link: EdgeEnds, weight: int, properties: Props) returns (found: bool)
      requires Valid()
      modifies this`s
      ensures Valid() && s == old(s).(pendingUpdates := s.pendingUpdates) && (!found ==> s == old(s))
      ensures found ==> HasLink(IsSymmetric(graph.st.schema, link.0), LogEnds(EdgeView(graph.st, s)), link)
      ensures found ==> Carried(s.pendingUpdates, IsSymmetric(graph.st.schema, link.0), link, weight, properties)
      ensures found ==> !NoSame(old(s).pendingUpdates, IsSymmetric(graph.st.schema, link.0), link)
      ensures Ahead()
    {
      hide SchemaSound, SchemaSync, ConceptsPending, NamesPending, RelationsPending, BelowWatermark, Consistent, Backed, SameTypes, StaysRestored;
      var symmetric := IsSymmetric(graph.st.schema, link.0);
      var i := IndexOfLink(s.pendingUpdates, symmetric, link);
      if i == |s.pendingUpdates| { return false; }
      assert s.pendingUpdates[i].id in graph.st.relations;
      LiveLink(graph.st, s, s.pendingUpdates[i].id, symmetric, link);
      ResetUpdatesOk(graph.st, store.log, s, i, weight, properties);
      ResetCarried(s.pendingUpdates, i, symmetric, link, weight, properties);
      s := s.(pendingUpdates := s.pendingUpdates[i := Reset(s.pendingUpdates[i], weight, properties)]);
      found := true;
    }

    /** The applied edge, whichever way round it is stored when symmetric. */
    method FindLink(link: EdgeEnds) returns (r: Option<nat>)
      requires Valid()
      ensures r.Some? ==> r.value in graph.st.relations
      ensures r.Some? ==> SameLink(IsSymmetric(graph.st.schema, link.0), EndsOf(graph.st.relations[r.value]), link)
      ensures r.None? ==> Between(graph.st, link.1, link.2, link.0).None?
      ensures r.None? && IsSymmetric(graph.st.schema, link.0) ==> Between(graph.st, link.2, link.1, link.0).None?
      ensures r == AppliedLink(LinksOf(graph.st, s), link)
    {
      BetweenIsFirst(graph.st.relations, graph.st.order, link);
      BetweenIsFirst(graph.st.relations, graph.st.order, Reversed(link));
      r := graph.RelationBetween(link.1, link.2, link.0);
      if r.Some? {
        SomeBetween(graph.st, link);
      } else if IsSymmetric(graph.st.schema, link.0) {
        r := graph.RelationBetween(link.2, link.1, link.0);
        if r.Some? { SomeBetween(graph.st, (link.0, link.2, link.1)); }
      }
    }

    /** An update of this edge waits, unless the edge already says the same. */
    method AskUpdate(link: EdgeEnds, id: nat, weight: int, properties: Props)
      requires Valid() && AppliedLink(LinksOf(graph.st, s), link) == Some(id) && id in graph.st.relations
      requires SameLink(IsSymmetric(graph.st.schema, link.0), EndsOf(graph.st.relations[id]), link)
      modifies this`s
      ensures Valid() && s == old(s).(pendingUpdates := s.pendingUpdates)
      ensures Asked(graph.st, old(s).pendingUpdates, s.pendingUpdates, id, IsSymmetric(graph.st.schema, link.0), link, weight, properties)
      ensures old(Fresh(LinksOf(graph.st, s), link)) ==> PutLink(graph.st, old(s), graph.st, s, link, weight, properties)
      ensures Says(graph.st.relations[id], weight, properties) ==> s == old(s)
      ensures Ahead()
    {
      hide SchemaSound, SchemaSync, ConceptsPending, NamesPending, RelationsPending, BelowWatermark, UpdatesPending, Consistent, LinkSays, Fresh, Keeps, KeepsBut, Backed, SameTypes, StaysRestored;
      var prev := graph.st.relations[id];
      assert prev.id == id;
      if prev.weight == weight && prev.properties == properties {
        if Fresh(LinksOf(graph.st, s), link) { SaidAlready(graph.st, s, link, id, weight, properties); }
        return;
      }
      MoreUpdatesOk(graph.st, store.log, s, id, weight, properties);
      s := s.(pendingUpdates := s.pendingUpdates + [Reset(prev, weight, properties)]);
      if old(Fresh(LinksOf(graph.st, s), link)) { AskedKeeps(graph.st, old(s), s, link, id, weight, properties); }
    }

    /** An applied edge of this link gets a pending update, unless it already
        says the same. */
    method RefreshApplied(link: EdgeEnds, weight: int, properties: Props) returns (found: bool, ghost id: nat)
      requires Valid()
      modifies this`s
      ensures Valid() && s == old(s).(pendingUpdates := s.pendingUpdates) && (!found ==> s == old(s))
      ensures found ==> Asked(graph.st, old(s).pendingUpdates, s.pendingUpdates, id, IsSymmetric(graph.st.schema, link.0),
                              link, weight, properties)
      ensures !found ==> Between(graph.st, link.1, link.2, link.0).None?
      ensures !found && IsSymmetric(graph.st.schema, link.0) ==> Between(graph.st, link.2, link.1, link.0).None?
      ensures found && old(Fresh(LinksOf(graph.st, s), link)) ==> PutLink(graph.st, old(s), graph.st, s, link, weight, properties)
      ensures found <==> AppliedLink(old(LinksOf(graph.st, s)), link).Some?
      ensures LinkApplied(graph.st, link, weight, properties) ==> found && s == old(s)
      ensures Ahead()
    {
      hide SchemaSound, SchemaSync, ConceptsPending, NamesPending, RelationsPending, BelowWatermark, UpdatesPending, Consistent, LinkSays, Fresh, PutLink, Backed, SameTypes, StaysRestored;
      id := 0;
      var rid := FindLink(link);
      if rid.None? { return false, id; }
      id := rid.value;
      AskUpdate(link, rid.value, weight, properties);
      found := true;
    }

    /** The full batch of updates settled. */
    method FlushFullUpdates(ghost link: EdgeEnds, ghost weight: int, ghost properties: Props, ghost a: State, ghost b: Session) returns (r: Ingested<()>)
      requires Valid()
      modifies this, store, graph`st
      ensures Valid() && s == old(s).(pendingUpdates := s.pendingUpdates) && SameShape(old(graph.st), graph.st)
      ensures graph.st.order == old(graph.st).order && graph.st.nextConcept == old(graph.st).nextConcept
      ensures r.Failed? ==> r.error.StoreFailure?
      ensures r.Done? && a.schema == graph.st.schema && old(PutLink(a, b, graph.st, s, link, weight, properties)) ==>
        PutLink(a, b, graph.st, s, link, weight, properties)
      ensures |old(s).pendingUpdates| < INGEST_BATCH_SIZE ==> r.Done? && Untouched()
      ensures old(InStep()) ==> InStep()
      ensures r.Done? ==> Ahead()
      ensures Steady(!NotLost(r))
      ensures Calm()
    {
      hide SchemaSound, SchemaSync, ConceptsPending, NamesPending, RelationsPending, BelowWatermark, UpdatesPending, Consistent, LinkSays, Backed, SameTypes, StaysRestored;
      r := Done(());
      if |s.pendingUpdates| >= INGEST_BATCH_SIZE {
        r := FlushUpdates();
        if r.Done? && a.schema == graph.st.schema && old(PutLink(a, b, graph.st, s, link, weight, properties)) {
          PutThenKept(a, b, old(graph.st), old(s), graph.st, s, link, weight, properties);
        }
      }
    }

    /** Refresh an applied edge of the link, if there is one. */
    method UpsertApplied(link: EdgeEnds, weight: int, properties: Props) returns (r: Ingested<bool>)
      requires Valid()
      modifies this, store, graph`st
      ensures Valid() && s == old(s).(pendingUpdates := s.pendingUpdates) && SameShape(old(graph.st), graph.st)
      ensures graph.st.order == old(graph.st).order && graph.st.nextConcept == old(graph.st).nextConcept
      ensures r.Failed? ==> r.error.StoreFailure?
      ensures r.Done? ==> r.value == AppliedLink(old(LinksOf(graph.st, s)), link).Some?
      ensures r.Done? && r.value ==> HasLink(IsSymmetric(graph.st.schema, link.0), old(LogEnds(EdgeView(graph.st, s))), link)
      ensures r.Done? && !r.value ==> s == old(s) && graph.st == old(graph.st)
      ensures r.Done? && !r.value ==> Between(graph.st, link.1, link.2, link.0).None?
      ensures r.Done? && !r.value && IsSymmetric(graph.st.schema, link.0) ==> Between(graph.st, link.2, link.1, link.0).None?
      ensures r.Done? && r.value && old(Fresh(LinksOf(graph.st, s), link)) ==>
        PutLink(old(graph.st), old(s), graph.st, s, link, weight, properties)
      ensures old(s.pendingUpdates == [] && LinkApplied(graph.st, link, weight, properties)) ==>
        r == Done(true) && Untouched()
      ensures old(InStep()) ==> InStep()
      ensures r.Done? ==> Ahead()
      ensures Steady(!NotLost(r))
      ensures Calm()
    {
      hide SchemaSound, SchemaSync, ConceptsPending, NamesPending, RelationsPending, BelowWatermark, UpdatesPending, Consistent, LinkSays, Fresh, PutLink, Backed, SameTypes, StaysRestored;
      ghost var id;
      var found;
      found, id := RefreshApplied(link, weight, properties);
      if !found { return Done(false); }
      LiveLink(graph.st, old(s), id, IsSymmetric(graph.st.schema, link.0), link);
      var f := FlushFullUpdates(link, weight, properties, old(graph.st), old(s));
      if f.Failed? { return Failed(f.error); }
      return Done(true);
    }

    /** Refresh the link if the view has it, and say so; otherwise leave
        everything as it is. No edge is added or moved. */
    method UpsertRelation(link: EdgeEnds, weight: int, properties: Props) returns (r: Ingested<bool>)
      requires Valid()
      modifies this, store, graph`st
      ensures Valid() && SameProgress(old(s), s) && SameButEdges(old(graph.st), graph.st) && s.pending == old(s).pending
      ensures r.Failed? ==> r.error.StoreFailure?
      ensures LogEnds(EdgeView(graph.st, s)) == old(LogEnds(EdgeView(graph.st, s)))
      ensures r.Done? ==> r.value == HasLink(IsSymmetric(graph.st.schema, link.0), old(LogEnds(EdgeView(graph.st, s))), link)
      ensures r.Done? && !r.value ==> s == old(s) && graph.st == old(graph.st)
      ensures old(InStep()) ==> InStep()
      ensures r.Done? && old(Fresh(LinksOf(graph.st, s), link)) ==> if r.value then PutLink(old(graph.st), old(s), graph.st, s, link, weight, properties) else Absent(LinksOf(graph.st, s), link)
      ensures old(Idle(s) && LinkApplied(graph.st, link, weight, properties)) ==> r == Done(true) && Untouched()
      ensures r.Done? ==> Ahead()
      ensures Steady(!NotLost(r))
      ensures Calm()
    {
      hide SchemaSound, SchemaSync, ConceptsPending, NamesPending, RelationsPending, BelowWatermark, UpdatesPending, Consistent, LinkSays, AppliedLink, Backed, SameTypes, StaysRestored;
      var found := RefreshPending(link, weight, properties);
      if found { return Done(true); }
      found := RefreshUpdate(link, weight, properties);
      if found { return Done(true); }
      r := UpsertApplied(link, weight, properties);
      SameShapeEnds(old(graph.st), graph.st);
      LogEndsConcat(Edges(graph.st), EffectsAll(graph.st.schema, s.pendingRelations));
      LogEndsConcat(Edges(old(graph.st)), EffectsAll(graph.st.schema, s.pendingRelations));
      if r.Done? && !r.value { NoLink(graph.st, s, link); }
    }

    // ---------- the schema ----------

    /** One un-journaled schema change; the schema before the first is kept. */
    method ExtendSchema(candidate: Schema) returns (r: Ingested<()>)
      requires Valid() && NothingPending(s) && WellKeyed(candidate)
      modifies this`s, graph`st
      ensures Valid() && NothingPending(s) && SameProgress(old(s), s)
      ensures r.Done? <==> AcceptsSchema(old(graph.st), candidate)
      ensures graph.st == if r.Done? then old(graph.st).(schema := candidate) else old(graph.st)
      ensures r.Failed? ==> r.error.GraphFailure? && s.schemaDirty == old(s).schemaDirty
      ensures Keeps(old(graph.st), old(s), graph.st, s)
      ensures r.Done? ==> Ahead()
      ensures old(InStep()) ==> InStep()
    {
      hide Backed, SameTypes, StaysRestored;
      if s.baseline.None? {
        BaselineOk(graph.st, store.log, s);
        s := s.(baseline := Some(graph.st.schema));
      }
      ghost var st := graph.st;
      IdleKeeps(st, old(s), s);
      var e := graph.ExtendOntology(candidate);
      if e.Err? { return Failed(GraphFailure(e.error)); }
      DeclaredOk(st, store.log, s, candidate);
      s := s.(schemaDirty := true);
      SchemaKeeps(st, old(s), candidate, s);
      SessionWellFormed(graph.st, store.log, s);
      UnmovedBacked(st, graph.st, store.log, astray);
      return Done(());
    }

    method NoteType(name: string)
      requires Valid()
      modifies this`s
      ensures Valid()
      ensures s == old(s).(declaredTypes := old(s).declaredTypes + (if opts.prune && name !in opts.pruneKeep then {name} else {}))
      ensures !opts.prune ==> s == old(s)
    {
      var noted := s.declaredTypes + (if opts.prune && name !in opts.pruneKeep then {name} else {});
      assert !opts.prune ==> noted == s.declaredTypes;
      ProgressOk(graph.st, store.log, s, s.(declaredTypes := noted));
      s := s.(declaredTypes := noted);
    }

    method NoteRelationType(name: string)
      requires Valid()
      modifies this`s
      ensures Valid()
      ensures s == old(s).(declaredRelationTypes :=
        old(s).declaredRelationTypes + (if opts.prune && name !in opts.pruneKeep then {name} else {}))
      ensures !opts.prune ==> s == old(s)
    {
      var noted := s.declaredRelationTypes + (if opts.prune && name !in opts.pruneKeep then {name} else {});
      assert !opts.prune ==> noted == s.declaredRelationTypes;
      ProgressOk(graph.st, store.log, s, s.(declaredRelationTypes := noted));
      s := s.(declaredRelationTypes := noted);
    }

    /** Settle what was validated against the current schema, then merge. */
    method MergeType(decl: ConceptType) returns (r: Ingested<()>)
      requires Valid()
      modifies this, store, graph`st, graph`ix
      ensures Valid() && SameProgress(old(s), s)
      ensures r.Done? ==> graph.st.schema == MergedSchema(old(graph.st).schema, decl)
      ensures r.Failed? ==> graph.st.schema == old(graph.st).schema
      ensures NotLost(r) ==> ConceptView(graph.st, s) == old(ConceptView(graph.st, s))
      ensures NotLost(r) && old(s).pendingUpdates == [] ==> EdgeView(graph.st, s) == old(EdgeView(graph.st, s)) && s.pendingUpdates == []
      ensures old(InStep()) ==> InStep()
      ensures r.Done? ==> Keeps(old(graph.st), old(s), graph.st, s)
      ensures r.Failed? ==> !r.error.PruneRefused?
      ensures r.Done? ==> Ahead()
      ensures Steady(!NotLost(r))
      ensures Calm()
    {
      hide SchemaSound, SchemaSync, ConceptsPending, NamesPending, RelationsPending, BelowWatermark, UpdatesPending, Consistent, Backed, StaysRestored;
      hide Keeps;
      r := SettlePending();
      if r.Failed? { return; }
      ghost var st1, s1 := graph.st, s;
      var next := new Ontology.Clone(graph.st.schema);
      var _ := next.MergeConceptType(decl);
      r := ExtendSchema(next.schema);
      KeepsOnward(old(graph.st), old(s), st1, s1, graph.st, s);
    }

    /** A declaration that changes nothing costs neither barrier nor record;
        any other takes effect on the settled graph. */
    method DeclareConceptType(decl: ConceptType) returns (r: Ingested<bool>)
      requires Valid()
      modifies this, store, graph`st, graph`ix
      ensures Valid() && SameProgress(old(s).(declaredTypes := s.declaredTypes), s)
      ensures s.declaredTypes == old(s).declaredTypes + (if opts.prune && decl.name !in opts.pruneKeep then {decl.name} else {})
      ensures r.Done? ==> r.value && graph.st.schema == MergedSchema(old(graph.st).schema, decl)
      ensures r.Failed? ==> graph.st.schema == old(graph.st).schema
      ensures NotLost(r) ==> ConceptView(graph.st, s) == old(ConceptView(graph.st, s))
      ensures NotLost(r) && old(s).pendingUpdates == [] ==> EdgeView(graph.st, s) == old(EdgeView(graph.st, s)) && s.pendingUpdates == []
      ensures old(InStep()) ==> InStep()
      ensures r.Done? ==> Keeps(old(graph.st), old(s), graph.st, s)
      ensures !opts.prune && old(DeclChangesNothing(graph.st.schema, decl)) ==> r == Done(true) && Untouched()
      ensures r.Failed? ==> !r.error.PruneRefused?
      ensures r.Done? ==> Ahead()
      ensures Steady(!NotLost(r))
      ensures Calm()
    {
      hide Backed, SameTypes, StaysRestored;
      NoteType(decl.name);
      IdleKeeps(graph.st, old(s), s);
      if DeclChangesNothing(graph.st.schema, decl) { return Done(true); }
      ghost var s1 := s;
      var f := MergeType(decl);
      if f.Failed? { return Failed(f.error); }
      KeepsOnward(old(graph.st), old(s), old(graph.st), s1, graph.st, s);
      return Done(true);
    }

    /** Settle what was validated against the current schema, then register. */
    method RegisterType(rt: RelationType) returns (r: Ingested<()>)
      requires Valid() && EndsKnown(graph.st.schema, rt)
      modifies this, store, graph`st, graph`ix
      ensures Valid() && SameProgress(old(s), s)
      ensures graph.st.schema == if r.Done? then Declared(old(graph.st).schema, rt) else old(graph.st).schema
      ensures NotLost(r) ==> ConceptView(graph.st, s) == old(ConceptView(graph.st, s))
      ensures NotLost(r) && old(s).pendingUpdates == [] ==> EdgeView(graph.st, s) == old(EdgeView(graph.st, s)) && s.pendingUpdates == []
      ensures r.Done? ==> Keeps(old(graph.st), old(s), graph.st, s)
      ensures old(InStep()) ==> InStep()
      ensures r.Failed? ==> !r.error.PruneRefused?
      ensures r.Done? ==> Ahead()
      ensures Steady(!NotLost(r))
      ensures old(NothingPending(s)) ==> NothingPending(s) && graph.st == old(graph.st).(schema := graph.st.schema)
      ensures NotLost(r) && old(NothingPending(s) && Registrable(graph.st, rt)) ==> r.Done?
    {
      hide SchemaSound, SchemaSync, ConceptsPending, NamesPending, RelationsPending, BelowWatermark, UpdatesPending, Consistent, Backed, StaysRestored;
      hide Keeps;
      r := SettlePending();
      if r.Failed? { return; }
      ghost var st1, s1 := graph.st, s;
      var next := new Ontology.Clone(graph.st.schema);
      var added := next.AddRelationType(rt);
      if added.Err? { return Failed(GraphFailure(added.error)); }
      r := ExtendSchema(next.schema);
      KeepsOnward(old(graph.st), old(s), st1, s1, graph.st, s);
    }

    /** Put off while a declared end is unknown. */
    method DeclareRelationType(rt: RelationType) returns (r: Ingested<bool>)
      requires Valid()
      modifies this, store, graph`st, graph`ix
      ensures Valid() && SameProgress(old(s).(declaredRelationTypes := s.declaredRelationTypes), s)
      ensures s.declaredRelationTypes ==
        old(s).declaredRelationTypes + (if opts.prune && rt.name !in opts.pruneKeep then {rt.name} else {})
      ensures r.Done? && r.value ==> EndsKnown(old(graph.st).schema, rt) && graph.st.schema == Declared(old(graph.st).schema, rt)
      ensures r.Done? && !r.value ==> !EndsKnown(graph.st.schema, rt) && graph.st == old(graph.st)
      ensures r == Done(false) <==> rt.domain !in old(graph.st).schema.conceptTypes || rt.range !in old(graph.st).schema.conceptTypes
      ensures r.Failed? ==> graph.st.schema == old(graph.st).schema
      ensures NotLost(r) ==> ConceptView(graph.st, s) == old(ConceptView(graph.st, s))
      ensures NotLost(r) && old(s).pendingUpdates == [] ==> EdgeView(graph.st, s) == old(EdgeView(graph.st, s)) && s.pendingUpdates == []
      ensures old(InStep()) ==> InStep()
      ensures r.Done? ==> Keeps(old(graph.st), old(s), graph.st, s)
      ensures !opts.prune && old(TypeAbsorbed(graph.st.schema, rt)) ==> r.Done? && Untouched()
      ensures r.Failed? ==> !r.error.PruneRefused?
      ensures r.Done? ==> Ahead()
      ensures Steady(!NotLost(r))
      ensures old(NothingPending(s)) ==> NothingPending(s) && graph.st == old(graph.st).(schema := graph.st.schema)
      ensures NotLost(r) && old(NothingPending(s) && Registrable(graph.st, rt)) ==> r.Done?
    {
      hide Backed, SameTypes, StaysRestored;
      NoteRelationType(rt.name);
      IdleKeeps(graph.st, old(s), s);
      if !EndsKnown(graph.st.schema, rt) { return Done(false); }
      if rt.name in graph.st.schema.relationTypes && graph.st.schema.relationTypes[rt.name] == rt {
        assert Declared(graph.st.schema, rt) == graph.st.schema;
        return Done(true);
      }
      ghost var s1 := s;
      var f := RegisterType(rt);
      if f.Failed? { return Failed(f.error); }
      KeepsOnward(old(graph.st), old(s), old(graph.st), s1, graph.st, s);
      return Done(true);
    }

    /** A whole schema: validated, then durable, then live. */
    method ReplaceOntology(candidate: Schema) returns (r: Ingested<bool>)
      requires Valid() && WellKeyed(candidate)
      modifies this, store, graph`st, graph`ix
      ensures Valid() && SameProgress(old(s), s)
      ensures r.Done? ==> r.value && graph.st.schema == candidate && store.log != [] && store.log[|store.log| - 1] == OntologyLog(candidate)
      ensures r.Failed? ==> graph.st.schema == old(graph.st).schema
      ensures NotLost(r) ==> ConceptView(graph.st, s) == old(ConceptView(graph.st, s))
      ensures NotLost(r) && old(s).pendingUpdates == [] ==> EdgeView(graph.st, s) == old(EdgeView(graph.st, s)) && s.pendingUpdates == []
      ensures old(InStep()) ==> InStep()
      ensures r.Done? ==> EdgesKept(old(graph.st), old(s), graph.st, s)
      ensures r.Done? ==> BatchKept(old(graph.st), old(s), graph.st, s)
      ensures r.Failed? ==> !r.error.PruneRefused?
      ensures r.Done? ==> Ahead()
      ensures Steady(!NotLost(r))
      ensures Calm()
    {
      hide Keeps, EdgesKept, AspectKept, SessionOk, Backed, Restored, RestoredById, AcceptsSchema, WellFormed;
      var f := Flush();
      if f.Failed? { return Failed(f.error); }
      EdgesByKeeps(old(graph.st), old(s), graph.st, s);
      ghost var st1, s1 := graph.st, s;
      var allowed := graph.CheckOntology(candidate);
      if allowed.Err? { return Failed(GraphFailure(allowed.error)); }
      ReplacedOk(graph.st, store.log, s, candidate);
      ReplacedBacked(graph.st, store.log, s, candidate, astray);
      var ok := store.Append([OntologyLog(candidate)]);
      if !ok { return Failed(StoreFailure); }
      var e := graph.ExtendOntology(candidate);
      assert e.Ok?;
      s := s.(schemaDirty := false, baseline := None);
      ReplacedEdges(st1, s1, graph.st, s);
      EdgesOnward(old(graph.st), old(s), st1, s1, graph.st, s);
      return Done(true);
    }

    /** Withdraw what was never journaled. It cannot be refused, so that the
        live schema and the journaled one agree again. */
    method RollbackSchema()
      requires Valid()
      modifies this`s, graph`st
      ensures graph.Valid() && LastSchema(store.log) == Some(graph.st.schema)
      ensures graph.st == old(graph.st).(schema := graph.st.schema) && !s.schemaDirty
      ensures old(InStep()) ==> InStep()
    {
      if !s.schemaDirty { return; }
      RolledBackOk(graph.st, store.log, s);
      var e := graph.ExtendOntology(s.baseline.value);
      assert e.Ok?;
      s := s.(schemaDirty := false, baseline := None);
    }

    // ---------- pruning ----------

    /** Delete the concepts of the declared types that were not staged, unless
        one type would lose more than its share: then nothing at all. */
    method PruneConcepts() returns (r: Ingested<()>)
      requires Valid() && NothingPending(s) && !s.schemaDirty && !graph.bulk
      modifies store, graph`st, graph`ix
      ensures Valid() && (old(InStep()) ==> InStep())
      ensures r.Failed? ==> graph.st == old(graph.st) && store.log == old(store.log) && (r.error.PruneRefused? || r.error.StoreFailure?)
      ensures r.Failed? && r.error.PruneRefused? <==> OverShare(old(graph.st), s, opts.pruneMaxFraction)
      ensures r.Done? ==>
        graph.st == WithoutConcepts(old(graph.st), StaleConcepts(old(graph.st), s.declaredTypes, s.seenConcepts))
      ensures old(RestoredById(graph.st, store.log)) ==> RestoredById(graph.st, store.log)
      ensures Calm()
    {
      hide Backed, SameTypes, StaysRestored;
      var stale := CollectStaleConcepts(graph, s.declaredTypes, s.seenConcepts, opts.pruneMaxFraction);
      if stale.Failed? { return Failed(stale.error); }
      r := DeleteStale(stale.value);
    }

    method DeleteStale(ids: seq<nat>) returns (r: Ingested<()>)
      requires Valid() && NothingPending(s) && !s.schemaDirty && NoDup(ids) && forall id :: id in ids ==> id in graph.st.concepts
      modifies store, graph`st, graph`ix
      ensures Valid() && (old(InStep()) ==> InStep())
      ensures r.Failed? ==> graph.st == old(graph.st) && store.log == old(store.log) && r.error.StoreFailure?
      ensures r.Done? ==> graph.st == WithoutConcepts(old(graph.st), Elems(ids))
      ensures old(RestoredById(graph.st, store.log)) ==> RestoredById(graph.st, store.log)
      ensures Calm()
    {
      hide Backed, RestoredById, WellFormed, SessionOk, Consistent, WithoutConcepts, StaysRestored;
      var deleted;
      ghost var targets;
      deleted, targets := DeleteConcepts(graph, store, ids);
      LiveOfMembers(old(graph.st).concepts, ids);
      if deleted.Failed? { return Failed(deleted.error); }
      assert Elems(targets) == Elems(ids);
      DeletedOk(old(graph.st), old(store.log), s, targets, astray);
      return Done(());
    }

    /** Delete the links of the declared types that leave a staged concept and
        were not emitted, with their materialised inverses. */
    method PruneLinks() returns (r: Ingested<()>)
      requires Valid() && NothingPending(s) && !s.schemaDirty
      modifies store, graph`st, graph`ix
      ensures Valid() && (old(InStep()) ==> InStep())
      ensures r.Failed? ==> graph.st == old(graph.st) && store.log == old(store.log) && r.error.StoreFailure?
      ensures r.Done? ==> LinksPruned(old(graph.st), graph.st, s)
      ensures old(RestoredById(graph.st, store.log)) ==> RestoredById(graph.st, store.log)
      ensures Calm()
    {
      hide Backed, RestoredById, WellFormed, SessionOk, Consistent, LinksPruned, AllListed, StaysRestored;
      var stale := CollectStaleLinks(graph, s.declaredRelationTypes, s.seenEdges, s.seenConcepts);
      if stale == [] {
        NothingPruned(graph.st, s);
        return Done(());
      }
      var ok := store.Append(LinkDeletions(stale));
      if !ok { return Failed(StoreFailure); }
      RemoveLinks(graph, stale);
      LinksDeletedOk(old(graph.st), old(store.log), s, stale, graph.st, astray);
      return Done(());
    }

    /** Delete what the source no longer says. */
    method Prune() returns (r: Ingested<()>)
      requires Valid() && NothingPending(s) && !s.schemaDirty && !graph.bulk
      modifies store, graph`st, graph`ix
      ensures Valid() && (old(InStep()) ==> InStep())
      ensures r.Failed? && r.error.PruneRefused? <==> OverShare(old(graph.st), s, opts.pruneMaxFraction)
      ensures r.Failed? && r.error.PruneRefused? ==> graph.st == old(graph.st) && store.log == old(store.log)
      ensures r.Failed? ==> r.error.PruneRefused? || r.error.StoreFailure?
      ensures r.Done? ==>
        LinksPruned(WithoutConcepts(old(graph.st), StaleConcepts(old(graph.st), s.declaredTypes, s.seenConcepts)), graph.st, s)
      ensures old(RestoredById(graph.st, store.log)) ==> RestoredById(graph.st, store.log)
      ensures Calm()
    {
      hide Backed, SameTypes, StaysRestored;
      r := PruneConcepts();
      if r.Failed? { return; }
      r := PruneLinks();
    }

    // ---------- records ----------

    method NoteEdge(source: nat, target: nat, rtype: string)
      requires Valid()
      modifies this`s
      ensures Valid() && s == old(s).(seenEdges := old(s).seenEdges + (if opts.prune then {(source, target, rtype)} else {}))
      ensures !opts.prune ==> s == old(s)
    {
      var noted := s.seenEdges + (if opts.prune then {(source, target, rtype)} else {});
      assert !opts.prune ==> noted == s.seenEdges;
      ProgressOk(graph.st, store.log, s, s.(seenEdges := noted));
      s := s.(seenEdges := noted);
    }

    /** The ends of a named relation; the concept batch is settled when one of
        them may be sitting in it. */
    method ResolveEnds(source: NameKey, target: NameKey) returns (r: Ingested<Option<(nat, nat)>>)
      requires Valid()
      modifies this`s, store, graph`st, graph`ix
      ensures Valid() && SameProgress(old(s), s) && graph.st.schema == old(graph.st).schema
      ensures s.pendingUpdates == old(s).pendingUpdates && s.pendingRelations == old(s).pendingRelations
      ensures r.Failed? ==> r.error.StoreFailure?
      ensures r.Done? ==> ConceptView(graph.st, s) == old(ConceptView(graph.st, s)) && EdgeView(graph.st, s) == old(EdgeView(graph.st, s))
      ensures r.Done? ==> r.value == EndsFound(graph.st, source, target)
      ensures r.Done? && r.value.None? ==> s.pending == []
      ensures old(InStep()) ==> InStep()
      ensures r.Done? ==> Keeps(old(graph.st), old(s), graph.st, s)
      ensures old(Idle(s) && EndsFound(graph.st, source, target).Some?) ==> r.Done? && Untouched()
      ensures r.Done? ==> Ahead()
      ensures Steady(!NotLost(r))
      ensures Calm()
    {
      hide Backed, SameTypes, StaysRestored;
      IdleKeeps(graph.st, s, s);
      var src := graph.FindByName(source.0, source.1);
      var tgt := graph.FindByName(target.0, target.1);
      if (src.None? || tgt.None?) && s.pending != [] {
        var f := SettleConcepts();
        if f.Failed? { return Failed(f.error); }
        src := graph.FindByName(source.0, source.1);
        tgt := graph.FindByName(target.0, target.1);
      }
      return Done(if src.Some? && tgt.Some? then Some((src.value, tgt.value)) else None);
    }

    method AddLink(link: EdgeEnds, weight: int, properties: Props) returns (r: Ingested<()>)
      requires Valid()
      modifies this`s, store, graph`st, graph`ix
      ensures Valid() && SameProgress(old(s), s) && graph.st.schema == old(graph.st).schema
      ensures NotLost(r) ==> ConceptView(graph.st, s) == old(ConceptView(graph.st, s))
      ensures r.Done? ==> LogEnds(EdgeView(graph.st, s)) == old(LogEnds(EdgeView(graph.st, s))) + NewEnds(graph.st.schema, link)
      ensures NotLost(r) && r.Failed? ==> LogEnds(EdgeView(graph.st, s)) == old(LogEnds(EdgeView(graph.st, s)))
      ensures old(InStep()) ==> InStep()
      ensures r.Done? && old(Absent(LinksOf(graph.st, s), link)) ==> PutLink(old(graph.st), old(s), graph.st, s, link, weight, properties)
      ensures r.Done? ==> s.pending == []
      ensures r.Failed? ==> !r.error.PruneRefused?
      ensures r.Done? ==> Ahead()
      ensures Steady(!NotLost(r))
      ensures NotLost(r) && old(Idle(s) && Addable(graph.st, link, weight, properties)) ==> r.Done?
      ensures Calm()
    {
      hide Backed, SameTypes, StaysRestored;
      var rel := Relation(0, link.0, link.1, link.2, weight, properties);
      ghost var before := EdgeView(graph.st, s);
      if Idle(s) { IdleView(graph.st, s); }
      r := AddRelation(rel);
      EffectEnds(graph.st.schema, rel);
      LogEndsConcat(before, Effects(graph.st.schema, rel));
    }

    /** Without upsert nothing is ever refreshed. */
    method RefreshAny(link: EdgeEnds, weight: int, properties: Props) returns (r: Ingested<bool>)
      requires Valid()
      modifies this, store, graph`st
      ensures Valid() && SameProgress(old(s), s) && SameButEdges(old(graph.st), graph.st)
      ensures r.Failed? ==> r.error.StoreFailure?
      ensures s.pending == old(s).pending
      ensures LogEnds(EdgeView(graph.st, s)) == old(LogEnds(EdgeView(graph.st, s)))
      ensures r.Done? ==> r.value == (opts.upsert && HasLink(IsSymmetric(graph.st.schema, link.0), old(LogEnds(EdgeView(graph.st, s))), link))
      ensures old(InStep()) ==> InStep()
      ensures opts.upsert && r.Done? && old(Fresh(LinksOf(graph.st, s), link)) ==> if r.value then PutLink(old(graph.st), old(s), graph.st, s, link, weight, properties) else Absent(LinksOf(graph.st, s), link)
      ensures old(Idle(s) && LinkApplied(graph.st, link, weight, properties)) ==> opts.upsert ==> r == Done(true) && Untouched()
      ensures r.Done? && !r.value ==> s == old(s) && graph.st == old(graph.st)
      ensures r.Done? ==> Ahead()
      ensures Steady(!NotLost(r))
      ensures Calm()
    {
      hide Backed, SameTypes, StaysRestored;
      r := Done(false);
      if opts.upsert { r := UpsertRelation(link, weight, properties); }
    }

    /** A relation whose ends are known: refreshed when the view has it and
        upsert is on, added otherwise. */
    method PutRelation(link: EdgeEnds, weight: int, properties: Props) returns (r: Ingested<()>)
      requires Valid()
      modifies this, store, graph`st, graph`ix
      ensures Valid() && SameProgress(old(s), s) && graph.st.schema == old(graph.st).schema
      ensures NotLost(r) ==> ConceptView(graph.st, s) == old(ConceptView(graph.st, s))
      ensures NotLost(r) ==> LogEnds(EdgeView(graph.st, s)) == EndsAfterPut(opts, graph.st.schema, old(LogEnds(EdgeView(graph.st, s))), link, r)
      ensures old(InStep()) ==> InStep()
      ensures opts.upsert && r.Done? && old(Fresh(LinksOf(graph.st, s), link)) ==> PutLink(old(graph.st), old(s), graph.st, s, link, weight, properties)
      ensures old(Idle(s) && LinkApplied(graph.st, link, weight, properties)) ==> opts.upsert ==> r.Done? && Untouched()
      ensures r.Done? ==> EdgesKept(old(graph.st), old(s), graph.st, s)
      ensures r.Done? ==> HasEither(LinksOf(graph.st, s), link)
      ensures r.Done? ==> BatchKept(old(graph.st), old(s), graph.st, s)
      ensures r.Failed? ==> !r.error.PruneRefused?
      ensures r.Done? ==> Ahead()
      ensures Steady(!NotLost(r))
      ensures NotLost(r) && old(Idle(s) && Addable(graph.st, link, weight, properties)) ==> r.Done?
      ensures Calm()
    {
      hide SchemaSound, SchemaSync, ConceptsPending, NamesPending, RelationsPending, BelowWatermark, UpdatesPending, Consistent, LinkSays, Fresh, AppliedLink, PutLink, Backed, SameTypes, StaysRestored;
      var found := RefreshAny(link, weight, properties);
      if found.Failed? { return Failed(found.error); }
      assert ConceptView(graph.st, s) == old(ConceptView(graph.st, s));
      if found.value {
        PutEdges(opts, old(graph.st), old(s), graph.st, s, link, Done(()));
        return Done(());
      }
      r := AddLink(link, weight, properties);
      if r.Done? { PutEdges(opts, old(graph.st), old(s), graph.st, s, link, r); }
    }

    /** A link that the source emitted, put. */
    method PutEmitted(link: EdgeEnds, weight: int, properties: Props) returns (r: Ingested<()>)
      requires Valid()
      modifies this, store, graph`st, graph`ix
      ensures Valid() && graph.st.schema == old(graph.st).schema
      ensures SameProgress(old(s).(seenEdges := s.seenEdges), s)
      ensures s.seenEdges == old(s).seenEdges + (if opts.prune then {(link.1, link.2, link.0)} else {})
      ensures NotLost(r) ==> ConceptView(graph.st, s) == old(ConceptView(graph.st, s))
      ensures old(InStep()) ==> InStep()
      ensures opts.upsert && r.Done? && old(Fresh(LinksOf(graph.st, s), link)) ==> PutLink(old(graph.st), old(s), graph.st, s, link, weight, properties)
      ensures opts.upsert && !opts.prune && old(Idle(s) && LinkApplied(graph.st, link, weight, properties)) ==> r.Done? && Untouched()
      ensures r.Done? ==> EdgesKept(old(graph.st), old(s), graph.st, s) && HasEither(LinksOf(graph.st, s), link)
      ensures r.Done? ==> NamesKept(old(graph.st), old(s), graph.st, s, 0)
      ensures r.Failed? ==> !r.error.PruneRefused?
      ensures r.Done? ==> Ahead()
      ensures Steady(!NotLost(r))
      ensures NotLost(r) && old(Idle(s) && Addable(graph.st, link, weight, properties)) ==> r.Done?
      ensures Calm()
    {
      hide SchemaSound, SchemaSync, ConceptsPending, NamesPending, RelationsPending, BelowWatermark, UpdatesPending, Consistent, LinkSays, Fresh, PutLink, LinkApplied, Keeps, Backed, SameTypes, StaysRestored;
      NoteEdge(link.1, link.2, link.0);
      ghost var s1 := s;
      IdleKeeps(graph.st, old(s), s1);
      FreshKept(graph.st, old(s), graph.st, s1, link);
      EdgesByKeeps(graph.st, old(s), graph.st, s1);
      NamesByKeeps(graph.st, old(s), graph.st, s1, 0);
      r := PutRelation(link, weight, properties);
      if r.Failed? { return; }
      if opts.upsert && old(Fresh(LinksOf(graph.st, s), link)) {
        KeptThenPut(old(graph.st), old(s), old(graph.st), s1, graph.st, s, link, weight, properties);
      }
      EdgesOnward(old(graph.st), old(s), old(graph.st), s1, graph.st, s);
      NamesByBatch(old(graph.st), s1, graph.st, s);
      NamesThrough(old(graph.st), old(s), old(graph.st), s1, graph.st, s, 0);
    }

    method PutNamed(rec: Record) returns (r: Ingested<bool>, ghost link: EdgeEnds)
      requires Valid() && rec.NamedRelation?
      modifies this, store, graph`st, graph`ix
      ensures Valid() && graph.st.schema == old(graph.st).schema
      ensures SameProgress(old(s).(seenEdges := s.seenEdges), s)
      ensures forall e :: e in s.seenEdges ==> e in old(s).seenEdges || e.2 == rec.rtype
      ensures NotLost(r) ==> ConceptView(graph.st, s) == old(ConceptView(graph.st, s))
      ensures r.Done? && !r.value ==> s.pending == [] && EndsFound(graph.st, SourceKey(rec), TargetKey(rec)).None?
      ensures old(InStep()) ==> InStep()
      ensures r.Done? && r.value && old(NamesSettled(graph.st, s)) ==> Binds(ConceptView(graph.st, s), rec, link)
      ensures opts.upsert && r.Done? && r.value && Fresh(old(LinksOf(graph.st, s)), link) ==>
        PutLink(old(graph.st), old(s), graph.st, s, link, rec.weight, rec.properties)
      ensures r.Done? && !r.value ==> Keeps(old(graph.st), old(s), graph.st, s)
      ensures opts.upsert && !opts.prune && old(Idle(s) && RelationAbsorbed(graph.st, rec)) ==> r == Done(true) && Untouched()
      ensures r.Done? ==> EdgesKept(old(graph.st), old(s), graph.st, s)
      ensures r.Done? && r.value ==> link.0 == rec.rtype && HasEither(LinksOf(graph.st, s), link)
      ensures r.Done? ==> s.seenEdges == old(s).seenEdges + (if opts.prune && r.value then {(link.1, link.2, rec.rtype)} else {})
      ensures r.Done? ==> NamesKept(old(graph.st), old(s), graph.st, s, 0)
      ensures r.Failed? ==> !r.error.PruneRefused?
      ensures r.Done? ==> Ahead()
      ensures Steady(!NotLost(r))
      ensures NotLost(r) && old(Idle(s) && NamedAddable(graph.st, rec)) ==> r == Done(true)
      ensures Calm()
    {
      hide SchemaSound, SchemaSync, ConceptsPending, NamesPending, RelationsPending, BelowWatermark, UpdatesPending, Consistent, LinkSays, Fresh, PutLink, LinkApplied, Keeps, WrittenAhead, EdgesKept, NamesKept, HasEither, EndsFound, Find, WellFormed, SameProgress, SessionOk, Backed, SameTypes, StaysRestored;
      link := (rec.rtype, 0, 0);
      var ends := ResolveEnds((rec.sourceType, rec.sourceName), (rec.targetType, rec.targetName));
      EdgesNoted(old(s), s, s);
      if ends.Failed? { return Failed(ends.error), link; }
      EdgesByKeeps(old(graph.st), old(s), graph.st, s);
      NamesByKeeps(old(graph.st), old(s), graph.st, s, 0);
      if ends.value.None? { return Done(false), link; }
      link := (rec.rtype, ends.value.value.0, ends.value.value.1);
      ghost var st1, s1, n0, n1 := graph.st, s, |old(store.log)|, |store.log|;
      if old(NamesSettled(graph.st, s)) { BoundInView(old(graph.st), old(s), st1, s1, rec, link); }
      EdgesByKeeps(old(graph.st), old(s), st1, s1);
      FreshKept(old(graph.st), old(s), st1, s1, link);
      var put := PutEmitted((rec.rtype, ends.value.value.0, ends.value.value.1), rec.weight, rec.properties);
      EdgesNoted(old(s), s1, s);
      if put.Failed? { return Failed(put.error), link; }
      if opts.upsert && Fresh(old(LinksOf(graph.st, s)), link) {
        KeptThenPut(old(graph.st), old(s), st1, s1, graph.st, s, link, rec.weight, rec.properties);
      }
      EdgesOnward(old(graph.st), old(s), st1, s1, graph.st, s);
      NamesThrough(old(graph.st), old(s), st1, s1, graph.st, s, 0);
      AheadOnward(old(graph.st), old(s), n0, st1, s1, n1, graph.st, s, |store.log|);
      return Done(true), link;
    }
  }

  /** Both ends of a named relation, if the graph has them. */
  ghost function EndsFound(st: State, source: NameKey, target: NameKey): Option<(nat, nat)> {
    var src, tgt := Find(st, (source.0, Lower(source.1))), Find(st, (target.0, Lower(target.1)));
    if src.Some? && tgt.Some? then Some((src.value, tgt.value)) else None
  }

  function SourceKey(rec: Record): NameKey
    requires rec.NamedRelation?
  {
    (rec.sourceType, rec.sourceName)
  }

  function TargetKey(rec: Record): NameKey
    requires rec.NamedRelation?
  {
    (rec.targetType, rec.targetName)
  }

  /** What adding a link adds: itself and, if symmetric, its inverse. */
  function NewEnds(schema: Schema, link: EdgeEnds): seq<EdgeEnds> {
    if IsSymmetric(schema, link.0) && link.1 != link.2 then [link, (link.0, link.2, link.1)] else [link]
  }

  lemma EffectEnds(schema: Schema, rel: Relation)
    ensures LogEnds(Effects(schema, rel)) == NewEnds(schema, EndsOf(rel))
  {
  }

  lemma AddedEdges(a: State, s: Session, b: State, t: Session, rel: Relation)
    requires WellFormed(a) && WellFormed(b) && EdgeView(b, t) == EdgeView(a, s) + Effects(a.schema, rel)
    ensures EdgesKept(a, s, b, t) && HasEdge(LinksOf(b, t), EndsOf(rel))
  {
    LogEndsConcat(EdgeView(a, s), Effects(a.schema, rel));
    EdgesGrown(a, s, b, t, LogEnds(Effects(a.schema, rel)));
    EffectEnds(a.schema, rel);
    assert EndsOf(rel) == LogEnds(Effects(a.schema, rel))[0];
  }

  lemma PutEdges(opts: Options, a: State, s: Session, b: State, t: Session, link: EdgeEnds, r: Ingested<()>)
    requires WellFormed(a) && WellFormed(b) && r.Done?
    requires LogEnds(EdgeView(b, t)) == EndsAfterPut(opts, a.schema, LogEnds(EdgeView(a, s)), link, r)
    ensures EdgesKept(a, s, b, t) && HasEither(LinksOf(b, t), link)
  {
    var before, symmetric := LogEnds(EdgeView(a, s)), IsSymmetric(a.schema, link.0);
    if opts.upsert && HasLink(symmetric, before, link) {
      assert before + [] == before;
      EdgesGrown(a, s, b, t, []);
      LinkIsEdge(b, t, symmetric, link);
    } else {
      EdgesGrown(a, s, b, t, NewEnds(a.schema, link));
      assert link == NewEnds(a.schema, link)[0];
    }
  }

  /** A schema replaced while no relation waits. */
  lemma ReplacedEdges(a: State, s: Session, b: State, t: Session)
    requires b.relations == a.relations && s.pendingRelations == [] && t.pendingRelations == []
    ensures EdgesKept(a, s, b, t)
  {
  }

  /** Which edges the view has once a link was put. */
  ghost function EndsAfterPut(opts: Options, schema: Schema, before: seq<EdgeEnds>, link: EdgeEnds, r: Ingested<()>): seq<EdgeEnds> {
    if r.Failed? || (opts.upsert && HasLink(IsSymmetric(schema, link.0), before, link)) then before
    else before + NewEnds(schema, link)
  }

  function LinkDeletions(stale: seq<StaleLink>): seq<LogRecord> {
    seq(|stale|, i requires 0 <= i < |stale| => DeleteRelationLog(stale[i].0, stale[i].1))
  }

  predicate OnlyTakeableGone(a: State, b: State, s: Session) {
    forall id :: id in a.relations && id !in b.relations ==>
      Takeable(a, s.declaredRelationTypes, s.seenConcepts, s.seenEdges, a.relations[id])
  }

  /** The concepts stay; no link of a declared type leaves a staged concept
      unless the source emitted it; and, with no declared inverses among the
      types, only links that were not emitted are gone. */
  ghost predicate LinksPruned(a: State, b: State, s: Session) {
    && b.concepts == a.concepts && OnlyRemoved(a, b)
    && (forall id :: id in b.relations && b.relations[id].source in s.seenConcepts && b.relations[id].rtype in s.declaredRelationTypes
          ==> Emitted(a.schema, s.seenEdges, b.relations[id]))
    && (NoInverses(a.schema, s.declaredRelationTypes) ==> OnlyTakeableGone(a, b, s))
  }

  lemma NothingPruned(st: State, s: Session)
    requires AllListed(st, s.seenConcepts, s.declaredRelationTypes, s.seenEdges, [])
    ensures LinksPruned(st, st, s)
  {
    assert forall id :: !Listed([], id);
  }

  lemma LinkTombstones(stale: seq<StaleLink>)
    ensures DeletedIds(LinkDeletions(stale)) == LinkIds(stale)
  {
    var more := LinkDeletions(stale);
    forall i | 0 <= i < |stale| ensures more[i].DeleteRelationLog? && more[i].id == stale[i].0 { }
  }

  lemma LinksDeletedOk(st: State, log: seq<LogRecord>, s: Session, stale: seq<StaleLink>, next: State, astray: bool)
    requires SessionOk(st, log, s) && NothingPending(s) && !s.schemaDirty && stale != []
    requires next == st.(relations := st.relations - LinkIds(stale), order := Minus(st.order, LinkIds(stale)))
    requires AllListed(st, s.seenConcepts, s.declaredRelationTypes, s.seenEdges, stale)
    requires NoInverses(st.schema, s.declaredRelationTypes) ==>
      OnlyTakeable(st, s.declaredRelationTypes, s.seenConcepts, s.seenEdges, stale)
    ensures SessionOk(next, log + LinkDeletions(stale), s) && LinksPruned(st, next, s) && WellOrdered(next)
    ensures LastSchema(log + LinkDeletions(stale)) == LastSchema(log)
    ensures RestoredById(st, log) ==> RestoredById(next, log + LinkDeletions(stale))
    ensures Backed(st, log, astray) ==> Backed(next, log + LinkDeletions(stale), astray)
  {
    hide Backed, RestoredById, ConceptsPending, NamesPending, RelationsPending, RelationsDue, BelowWatermark, NamesUnique;
    LinkTombstones(stale);
    UnlinkedWellFormed(st, LinkIds(stale));
    LinksBacked(st, log, LinkDeletions(stale), astray);
    PrunedOk(st, log, s, next, LinkDeletions(stale));
    forall id ensures Listed(stale, id) <==> id in LinkIds(stale) { }
  }

  /** Some declared type would lose more than its share. */
  ghost predicate OverShare(st: State, s: Session, maxFraction: real) {
    exists t :: t in s.declaredTypes && Guarded(st, t, s.seenConcepts, maxFraction)
  }

  /** Nothing was added or changed. */
  predicate OnlyRemoved(a: State, b: State) {
    && b.schema == a.schema && (forall id :: id in b.concepts ==> id in a.concepts && b.concepts[id] == a.concepts[id])
    && (forall id :: id in b.relations ==> id in a.relations && b.relations[id] == a.relations[id])
  }

  predicate IncidentToSet(r: Relation, gone: set<nat>) { r.source in gone || r.target in gone }

  /** The state without some concepts and the edges around them. */
  function WithoutConcepts(st: State, gone: set<nat>): State {
    Without(st, gone, AroundSet(st, gone))
  }

  function AroundSet(st: State, gone: set<nat>): set<nat> {
    set r | r in st.relations && IncidentToSet(st.relations[r], gone)
  }

  lemma AroundIsIncident(st: State, targets: seq<nat>)
    ensures Around(st, targets) == AroundSet(st, Elems(targets))
  {
    forall r | r in st.relations
      ensures IncidentToAny(st.relations[r], targets) <==> IncidentToSet(st.relations[r], Elems(targets))
    {
      if st.relations[r].source in targets {
        var i :| 0 <= i < |targets| && targets[i] == st.relations[r].source;
        assert Incident(st.relations[r], targets[i]);
      }
      if st.relations[r].target in targets {
        var i :| 0 <= i < |targets| && targets[i] == st.relations[r].target;
        assert Incident(st.relations[r], targets[i]);
      }
    }
  }

  lemma RemovedConcepts(st: State, targets: seq<nat>)
    requires NoDup(targets) && forall x :: x in targets ==> x in st.concepts
    ensures RemovedAll(st, targets) == WithoutConcepts(st, Elems(targets))
  {
    RemovedAllExact(st, targets);
    AroundIsIncident(st, targets);
  }

  /** The state and journal after a deletion are in step. */
  lemma DeletedOk(st: State, log: seq<LogRecord>, s: Session, targets: seq<nat>, astray: bool)
    requires SessionOk(st, log, s) && NothingPending(s) && !s.schemaDirty
    requires NoDup(targets) && forall x :: x in targets ==> x in st.concepts
    ensures RemovedAll(st, targets) == WithoutConcepts(st, Elems(targets))
    ensures SessionOk(RemovedAll(st, targets), log + DeletionLog(st, targets), s)
    ensures LastSchema(log + DeletionLog(st, targets)) == LastSchema(log)
    ensures WellOrdered(RemovedAll(st, targets)) && RemovedAll(st, targets).schema == st.schema
    ensures RestoredById(st, log) ==> RestoredById(RemovedAll(st, targets), log + DeletionLog(st, targets))
    ensures Backed(st, log, astray) ==> Backed(RemovedAll(st, targets), log + DeletionLog(st, targets), astray)
  {
    hide Backed, RestoredById, NamesUnique;
    RemovedConcepts(st, targets);
    RemovedAllWellFormed(st, targets);
    NoSchemaDeleted(st, targets);
    DeletionsBacked(st, log, targets, astray);
    PrunedOk(st, log, s, RemovedAll(st, targets), DeletionLog(st, targets));
  }

  lemma {:induction false} NoSchemaDeleted(st: State, targets: seq<nat>)
    requires forall x :: x in targets ==> x in st.concepts
    ensures forall i :: 0 <= i < |DeletionLog(st, targets)| ==> !DeletionLog(st, targets)[i].OntologyLog?
  {
    if targets != [] { NoSchemaDeleted(st, targets[..|targets| - 1]); }
  }

  lemma PrunedOk(st: State, log: seq<LogRecord>, s: Session, next: State, more: seq<LogRecord>)
    requires SessionOk(st, log, s) && NothingPending(s) && !s.schemaDirty
    requires WellFormed(next) && OnlyRemoved(st, next) && forall i :: 0 <= i < |more| ==> !more[i].OntologyLog?
    ensures SessionOk(next, log + more, s) && LastSchema(log + more) == LastSchema(log)
  {
    LastSchemaAppend(log, more);
  }

  predicate EndsKnown(schema: Schema, rt: RelationType) {
    rt.domain in schema.conceptTypes && rt.range in schema.conceptTypes
  }

  function Declared(schema: Schema, rt: RelationType): Schema {
    schema.(relationTypes := schema.relationTypes[rt.name := rt])
  }

  /** Nothing speaks against registering the type. */
  ghost predicate Registrable(st: State, rt: RelationType) {
    RelationDeclarable(st.schema, rt) && AcceptsSchema(st, Declared(st.schema, rt))
  }

  /** A barrier was not lost on the way. */
  predicate NotLost<T>(r: Ingested<T>) { r.Done? || !r.error.StoreFailure? }

  ghost predicate NotAmong(batch: seq<Concept>, id: nat) {
    id != 0 ==> forall i :: 0 <= i < |batch| ==> batch[i].id != id
  }

  /** The live concept an upsert record names, as graph and view agree. */
  ghost predicate FoundAs(st: State, s: Session, c: Concept, id: nat) {
    && id > 0 && id in st.concepts && id in ConceptView(st, s)
    && st.concepts[id] == ConceptView(st, s)[id] && st.concepts[id].ctype == c.ctype && st.concepts[id].id == id
  }

  /** The concept found has the name it was found under. */
  predicate NamedAs(st: State, existing: Option<nat>, c: Concept) {
    existing.Some? ==> existing.value in st.concepts && KeyOf(st.concepts[existing.value]) == KeyOf(c)
  }

  /** The answer, the concepts of the view being `concepts` now. */
  ghost predicate Gives(answer: Answer, r: Ingested<nat>, concepts: map<nat, Concept>) {
    if r.Done? then answer == Taken(r.value, concepts) else answer.Refused?
  }

  ghost predicate Answers(answer: Answer, r: Ingested<()>, id: nat, concepts: map<nat, Concept>) {
    if r.Done? then answer == Taken(id, concepts) else answer.Refused?
  }

  /** The name was looked up first; then the batch was settled, if the id waits
      in it, and left alone otherwise. */
  ghost predicate Resolved(opts: Options, a: State, s: Session, b: State, t: Session, c: Concept, existing: Option<nat>) {
    && existing == Existing(opts, a, c) && b.schema == a.schema
    && if Settles(opts, a, s, c) then Emptied(t) && b.concepts == ConceptView(a, s)
       else b.concepts == a.concepts && b.nextConcept == a.nextConcept && t.pending == s.pending && t.pendingNames == s.pendingNames
  }

  lemma ResolvedStaging(opts: Options, a: State, s: Session, b: State, t: Session, c: Concept, existing: Option<nat>)
    requires BatchOk(a, s) && Resolved(opts, a, s, b, t, c, existing)
    requires existing.Some? ==> existing.value in b.concepts && existing.value != 0
    ensures Staging(opts, a, s, c) == Merged(opts, b, t, c, existing)
  {
    hide Merged, WellFormed, ConceptsPending;
    if Settles(opts, a, s, c) {
      MergedFrame(opts, ViewState(a, s), s.(pending := [], pendingNames := map[]), b, t, c, existing);
    } else {
      MergedFrame(opts, a, s, b, t, c, existing);
    }
  }

  /** The answer to a record, and what is as before in the view. */
  ghost predicate StagedAs(opts: Options, a: State, s: Session, b: State, t: Session, c: Concept, r: Ingested<nat>) {
    && Gives(Staging(opts, a, s, c), r, ConceptView(b, t)) && EdgesKept(a, s, b, t)
    && (r.Done? ==> StagedInto(opts, a, s, ConceptView(b, t), c, r.value) && NamesKept(a, s, b, t, c.id))
    && (r.Done? && c.id == 0 && NamesSettled(a, s) ==> Keeps(a, s, b, t))
  }

  lemma StagedMeans(opts: Options, a: State, s: Session, after: map<nat, Concept>, c: Concept, id: nat)
    ensures StagedInto(opts, a, s, after, c, id) ==> TakenAs(opts, ConceptView(a, s), after, c, id)
  {
    if StagedInto(opts, a, s, after, c, id) { UpsertMeans(opts, ConceptView(a, s), after, c, id); }
  }

  /** On a settled graph an upsert by name takes the concept of that name, if
      there is one, and leaves everything as it is exactly when merging would
      leave the concept as it is; otherwise the concept is new. */
  ghost predicate FoundOrNew(opts: Options, a: State, c: Concept, id: nat, untouched: bool) {
    if Find(a, KeyOf(c)).Some? then
      && id == Find(a, KeyOf(c)).value && id in a.concepts
      && (untouched <==> MergedWith(opts.mergeProperties, a.concepts[id], c, a.concepts[id]))
    else id !in a.concepts
  }

  lemma FoundIsTaken(opts: Options, a: State, log: seq<LogRecord>, s: Session, after: map<nat, Concept>, c: Concept, id: nat)
    requires SessionOk(a, log, s) && Idle(s) && opts.upsert && c.id == 0 && Staging(opts, a, s, c) == Taken(id, after)
    ensures var untouched := after == a.concepts;
      && FoundOrNew(opts, a, c, id, untouched) && (untouched ==> ConceptAbsorbed(opts, a.concepts, c))
      && (ConceptAbsorbed(opts, a.concepts, c) ==> untouched)
  {
    hide SchemaAllows;
    AbsorbedMeans(opts, a.concepts, c);
    var found := Find(a, KeyOf(c));
    assert ConceptView(a, s) == a.concepts;
    if found.Some? {
      FoundId(a, KeyOf(c), found.value);
      var prev := a.concepts[found.value];
      RefreshedMeans(opts, prev, c, prev);
      if !AlreadySaid(opts, prev, c) { AdmittedInto(a, s, Refreshed(opts, prev, c).(id := found.value)); }
      if ConceptAbsorbed(opts, a.concepts, c) { AbsorbedFound(opts, a, c); }
    } else {
      AdmittedInto(a, s, c);
      if ConceptAbsorbed(opts, a.concepts, c) { AbsorbedFound(opts, a, c); }
    }
  }

  /** A record staged once its name was resolved. */
  lemma StagedAfter(opts: Options, a: State, log: seq<LogRecord>, s: Session, st: State, mid: Session, b: State, t: Session,
                    c: Concept, existing: Option<nat>, r: Ingested<nat>)
    requires SessionOk(a, log, s) && Resolved(opts, a, s, st, mid, c, existing) && Keeps(a, s, st, mid)
    requires existing.Some? ==> existing.value in st.concepts && existing.value != 0
    requires Gives(Merged(opts, st, mid, c, existing), r, ConceptView(b, t))
    requires b.concepts == st.concepts && b.schema == st.schema && LinksOf(b, t) == LinksOf(st, mid)
    requires NamesSettled(a, s) ==> NamedAs(st, existing, c)
    requires r.Done? && c.id == 0 && NamedAs(st, existing, c) ==> Keeps(st, mid, b, t)
    ensures StagedAs(opts, a, s, b, t, c, r)
  {
    hide Merged, Staging, StagedInto, NamesKept, EdgesKept, Keeps, Settles;
    BatchIsOk(a, log, s);
    ResolvedStaging(opts, a, s, st, mid, c, existing);
    if r.Done? {
      StagingInto(opts, a, s, c);
      StagedKeepsNames(opts, a, s, b, t, c, r.value);
    }
    EdgesByKeeps(a, s, st, mid);
    EdgesSame(st, mid, b, t);
    EdgesOnward(a, s, st, mid, b, t);
    if r.Done? && c.id == 0 && NamesSettled(a, s) { KeepsOnward(a, s, st, mid, b, t); }
  }

  lemma AbsorbedHere(opts: Options, st: State, log: seq<LogRecord>, s: Session, c: Concept)
    requires SessionOk(st, log, s) && ConceptAbsorbed(opts, st.concepts, c)
    ensures c.id == 0 && Find(st, KeyOf(c)).Some?
    ensures var id := Find(st, KeyOf(c)).value; id in st.concepts && AlreadySaid(opts, st.concepts[id], c)
  {
    AbsorbedFound(opts, st, c);
  }

  lemma BatchIsOk(st: State, log: seq<LogRecord>, s: Session)
    requires SessionOk(st, log, s)
    ensures BatchOk(st, s)
  {
  }

  /** What a relation record does: it is refused exactly when adding it to the
      view would be, and then by the same error; accepted, the view grows by it
      and its materialised inverse. */
  ghost predicate AddedToView(a: State, s: Session, b: State, t: Session, rel: Relation, r: Ingested<()>) {
    && WellOrdered(a) && WellOrdered(b) && r == Verdict(a.schema, ConceptView(a, s), EdgeView(a, s), rel)
    && EdgeView(b, t) == Accepted(a.schema, EdgeView(a, s), rel, r)
  }

  /** Nothing speaks against adding the link. */
  ghost predicate Addable(st: State, link: EdgeEnds, weight: int, properties: Props) {
    WellOrdered(st) && Verdict(st.schema, st.concepts, Edges(st), Relation(0, link.0, link.1, link.2, weight, properties)).Done?
  }

  ghost predicate NamedAddable(st: State, rec: Record)
    requires rec.NamedRelation?
  {
    var ends := EndsFound(st, SourceKey(rec), TargetKey(rec));
    ends.Some? && Addable(st, (rec.rtype, ends.value.0, ends.value.1), rec.weight, rec.properties)
  }

  lemma IdleView(st: State, s: Session)
    requires Idle(s) && WellOrdered(st)
    ensures ConceptView(st, s) == st.concepts && EdgeView(st, s) == Edges(st)
  {
  }

  /** Concepts and schema are settled. */
  ghost predicate ConceptsSettled(a: State, s: Session, b: State, t: Session) {
    t.pending == [] && !t.schemaDirty && b.concepts == ConceptView(a, s)
  }

  /** A link that was absent now says what the record says; no other lost anything. */
  ghost predicate PutFresh(a: State, s: Session, b: State, t: Session, rel: Relation) {
    Absent(LinksOf(a, s), EndsOf(rel)) ==> PutLink(a, s, b, t, EndsOf(rel), rel.weight, rel.properties)
  }

  ghost predicate EdgeAdded(a: State, s: Session, b: State, t: Session, rel: Relation) {
    EdgesKept(a, s, b, t) && HasEdge(LinksOf(b, t), EndsOf(rel)) && PutFresh(a, s, b, t, rel)
  }

  lemma FreshThenKept(a: State, s: Session, b: State, t: Session, c: State, u: Session, rel: Relation)
    requires PutFresh(a, s, b, t, rel) && Keeps(b, t, c, u) && b.schema == a.schema && c.schema == a.schema
    ensures PutFresh(a, s, c, u, rel)
  {
    hide LinkSays, Fresh, Absent;
    if Absent(LinksOf(a, s), EndsOf(rel)) { PutThenKept(a, s, b, t, c, u, EndsOf(rel), rel.weight, rel.properties); }
  }

  lemma KeptThenFresh(a: State, s: Session, b: State, t: Session, c: State, u: Session, rel: Relation)
    requires Keeps(a, s, b, t) && PutFresh(b, t, c, u, rel) && b.schema == a.schema
    ensures PutFresh(a, s, c, u, rel)
  {
    hide LinkSays, Fresh, Absent;
    if Absent(LinksOf(a, s), EndsOf(rel)) {
      FreshKept(a, s, b, t, EndsOf(rel));
      KeptThenPut(a, s, b, t, c, u, EndsOf(rel), rel.weight, rel.properties);
    }
  }

  /** The answer, and the edges reached, are those of adding the relation to
      the applied concepts and the view's edges. */
  ghost predicate Answered(a: State, s: Session, b: State, t: Session, rel: Relation, r: Ingested<()>) {
    && WellOrdered(a) && WellOrdered(b) && r == Verdict(a.schema, a.concepts, EdgeView(a, s), rel)
    && EdgeView(b, t) == Accepted(a.schema, EdgeView(a, s), rel, r)
  }

  /** The type is registered as declared, or cannot be yet. */
  predicate TypeAbsorbed(schema: Schema, rt: RelationType) {
    EndsKnown(schema, rt) ==> rt.name in schema.relationTypes && schema.relationTypes[rt.name] == rt
  }

  /** The ends of a named relation in a map of concepts. */
  ghost predicate Binds(concepts: map<nat, Concept>, rec: Record, link: EdgeEnds)
    requires rec.NamedRelation?
  {
    && link.0 == rec.rtype && NamedBy(concepts, (rec.sourceType, Lower(rec.sourceName)), link.1)
    && NamedBy(concepts, (rec.targetType, Lower(rec.targetName)), link.2)
  }

  lemma BoundInView(a: State, s: Session, b: State, t: Session, rec: Record, link: EdgeEnds)
    requires rec.NamedRelation? && Keeps(a, s, b, t) && NamesSettled(a, s)
    requires EndsFound(b, SourceKey(rec), TargetKey(rec)) == Some((link.1, link.2)) && link.0 == rec.rtype
    ensures Binds(ConceptView(b, t), rec, link)
  {
    assert AspectKept(a, s, b, t, OfName(link.1)) && AspectKept(a, s, b, t, OfName(link.2));
    assert NameSettled(a, s, link.1) && NameSettled(a, s, link.2);
    assert NamedBy(b.concepts, (rec.sourceType, Lower(rec.sourceName)), link.1);
    assert NamedBy(b.concepts, (rec.targetType, Lower(rec.targetName)), link.2);
  }

  /** An upsert finds the ends, and an edge that already carries the values. */
  ghost predicate RelationAbsorbed(st: State, rec: Record)
    requires rec.NamedRelation?
  {
    var ends := EndsFound(st, SourceKey(rec), TargetKey(rec));
    ends.Some? && LinkApplied(st, (rec.rtype, ends.value.0, ends.value.1), rec.weight, rec.properties)
  }

  /** The prune bookkeeping is as it was. */
  predicate SameProgress(a: Session, b: Session) {
    && b.declaredTypes == a.declaredTypes && b.declaredRelationTypes == a.declaredRelationTypes
    && b.seenConcepts == a.seenConcepts && b.seenEdges == a.seenEdges
  }

  lemma ProgressOnward(a: Session, b: Session, c: Session)
    requires SameProgress(a, b) && SameProgress(b.(seenConcepts := c.seenConcepts), c)
    ensures SameProgress(a.(seenConcepts := c.seenConcepts), c) && b.seenConcepts == a.seenConcepts
  {
  }

  lemma EdgesNoted(a: Session, b: Session, c: Session)
    requires SameProgress(a, b) && (c == b || SameProgress(b.(seenEdges := c.seenEdges), c))
    ensures SameProgress(a.(seenEdges := c.seenEdges), c) && b.seenEdges == a.seenEdges
  {
  }

  /** A key bound in the batch to the id of a concept that is not in the batch
      cannot be. */
  lemma NoIdClash(st: State, s: Session, c: Concept)
    requires NamesPending(s.pending, s.pendingNames) && BelowWatermark(st, s.pending) && ConceptsPending(st, s.pending)
    requires c.id != 0 ==> forall i :: 0 <= i < |s.pending| ==> s.pending[i].id != c.id
    requires KeyOf(c) in s.pendingNames ==> c.id != 0 && s.pendingNames[KeyOf(c)] == c.id
    ensures KeyOf(c) !in s.pendingNames && forall i :: 0 <= i < |s.pending| ==> s.pending[i].id != c.id
  {
    forall i | 0 <= i < |s.pending| ensures s.pending[i].id != 0 { assert Admissible(st, s.pending[i]); }
  }
}
