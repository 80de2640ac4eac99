/** What a restart finds: the journal replayed, record by record, into a new
    graph (crates/storage/src/memory.rs). A replayed relation keeps its id only
    while no other edge has it, and the inverse of a symmetric edge takes the
    next free one, so the edges come back but their ids need not. */
module Recovery {
  import opened Collections
  import opened OntologySchema
  import opened GraphState
  import opened StateLaws
  import opened BatchLaws
  import opened IngestState
  import opened SessionLaws
  import opened UpsertLaws
  import opened Deletion

  // ---------- the replay ----------

  /** One record; no state when the load fails. */
  ghost function ReloadOne(st: State, rec: LogRecord): Option<State> {
    match rec
    case OntologyLog(schema) => if AcceptsSchema(st, schema) then Some(st.(schema := schema)) else None
    case ConceptLog(c) => var (next, r) := GraphState.UpsertConcept(st, c); if r.Ok? then Some(next) else None
    case RelationLog(rel) => var (next, r) := GraphState.AddRelation(st, rel); if r.Ok? then Some(next) else None
    case UpdateRelationLog(u) =>
      if u.id in st.relations then Some(GraphState.UpdateRelation(st, u.id, RelationPatch(Some(u.weight), Some(u.properties))).0)
      else var (next, r) := GraphState.AddRelation(st, u); if r.Ok? then Some(next) else None
    case DeleteConceptLog(id, _) => Some(GraphState.RemoveConcept(st, id).0)
    case DeleteRelationLog(id, _) => Some(GraphState.RemoveRelation(st, id).0)
  }

  ghost function Reload(st: State, log: seq<LogRecord>): Option<State>
    decreases log
  {
    if log == [] then Some(st) else
    var next := ReloadOne(st, log[0]);
    if next.None? then None else Reload(next.value, log[1..])
  }

  /** What loading the journal leaves. */
  ghost function Recovered(log: seq<LogRecord>): Option<State> { Reload(Empty(EMPTY_SCHEMA), log) }

  lemma {:induction false} ReloadConcat(st: State, a: seq<LogRecord>, b: seq<LogRecord>)
    ensures Reload(st, a + b) == if Reload(st, a).None? then None else Reload(Reload(st, a).value, b)
    decreases a
  {
    if a == [] {
      assert a + b == b;
    } else {
      assert (a + b)[1..] == a[1..] + b;
      var next := ReloadOne(st, a[0]);
      if next.Some? { ReloadConcat(next.value, a[1..], b); }
    }
  }

  // ---------- the same graph up to relation ids ----------

  /** The same concepts, and the same edges in the same order. */
  ghost predicate Twin(r: State, st: State) {
    WellFormed(r) && WellFormed(st) && r.concepts == st.concepts && Edges(r) == Edges(st)
  }

  lemma SameIds(r: State, st: State)
    requires Twin(r, st) && r.order == st.order
    ensures r.relations == st.relations
  {
    forall id ensures id in r.relations <==> id in st.relations {
      assert id in r.order <==> id in r.relations;
      assert id in st.order <==> id in st.relations;
    }
    forall id | id in st.relations ensures r.relations[id] == st.relations[id] {
      var i :| 0 <= i < |st.order| && st.order[i] == id;
      assert Edges(r)[i] == Edges(st)[i];
    }
  }

  lemma TwinIds(r: State, st: State)
    requires Twin(r, st) && r.order == st.order
    ensures r.relations == st.relations && r.concepts == st.concepts
  {
    SameIds(r, st);
  }

  lemma SameGraphTwin(r: State, st: State)
    requires WellFormed(r) && WellFormed(st) && r.concepts == st.concepts && r.relations == st.relations && r.order == st.order
    ensures Twin(r, st)
  {
  }

  lemma TwinType(r: State, st: State, id: nat)
    requires Twin(r, st) && id in r.relations
    ensures exists x :: x in st.relations && st.relations[x].rtype == r.relations[id].rtype
  {
    var i :| 0 <= i < |r.order| && r.order[i] == id;
    assert Edges(r)[i] == Edges(st)[i];
    assert st.order[i] in st.relations;
  }

  // ---------- when the ids come back ----------

  predicate MirroredBy(before: seq<LogRecord>, rel: Relation) {
    LastSchema(before).Some? && Mirrored(LastSchema(before).value, rel)
  }

  /** No relation of a symmetric type was journaled. */
  predicate Straight(log: seq<LogRecord>) {
    forall k :: 0 <= k < |log| && log[k].RelationLog? ==> !MirroredBy(log[..k], log[k].relation)
  }

  predicate ById(rec: LogRecord) { rec.UpdateRelationLog? || rec.DeleteRelationLog? }

  /** No relation of a symmetric type was journaled before a record that names
      a relation by its id. */
  predicate Replayable(log: seq<LogRecord>) {
    forall k :: 0 <= k < |log| && ById(log[k]) ==> Straight(log[..k])
  }

  /** A restart finds the same graph up to relation ids. */
  ghost predicate Restored(st: State, log: seq<LogRecord>) {
    var r := Recovered(log);
    r.Some? && Some(r.value.schema) == LastSchema(log) && Twin(r.value, st)
  }

  /** It finds the same ids as well. */
  ghost predicate RestoredById(st: State, log: seq<LogRecord>) {
    && Restored(st, log) && Recovered(log).value.order == st.order && Recovered(log).value.nextRelation <= st.nextRelation
  }

  /** A restart finds the graph as it is now, unless the journal names a
      relation by its id after one of a symmetric type. */
  ghost predicate Recovers(st: State, log: seq<LogRecord>) {
    Replayable(log) ==> Restored(st, log) && (Straight(log) ==> RestoredById(st, log))
  }

  lemma StraightPrefix(log: seq<LogRecord>, more: seq<LogRecord>)
    ensures Straight(log + more) ==> Straight(log)
  {
    var all := log + more;
    if Straight(all) {
      forall k | 0 <= k < |log| && log[k].RelationLog? ensures !MirroredBy(log[..k], log[k].relation) {
        assert all[..k] == log[..k] && all[k] == log[k];
      }
    }
  }

  lemma ReplayablePrefix(log: seq<LogRecord>, more: seq<LogRecord>)
    requires Replayable(log + more)
    ensures Replayable(log) && (NamesIds(more) ==> Straight(log))
  {
    var all := log + more;
    forall k | 0 <= k < |log| && ById(log[k]) ensures Straight(log[..k]) {
      assert all[..k] == log[..k] && all[k] == log[k];
    }
    if k :| 0 <= k < |more| && ById(more[k]) {
      assert all[|log| + k] == more[k] && all[..|log| + k] == log + more[..k];
      StraightPrefix(log, more[..k]);
    }
  }

  predicate NamesIds(more: seq<LogRecord>) { exists k :: 0 <= k < |more| && ById(more[k]) }

  lemma RecoversOn(st: State, log: seq<LogRecord>, more: seq<LogRecord>, next: State)
    requires Restored(st, log) && (NamesIds(more) ==> RestoredById(st, log)) ==> Restored(next, log + more)
    requires RestoredById(st, log) && Straight(log + more) ==> RestoredById(next, log + more)
    ensures Recovers(st, log) ==> Recovers(next, log + more)
  {
    hide Restored, RestoredById, ById, Straight, Replayable;
    if Replayable(log + more) { ReplayablePrefix(log, more); }
    StraightPrefix(log, more);
  }

  lemma ReloadOn(log: seq<LogRecord>, more: seq<LogRecord>)
    requires Recovered(log).Some?
    ensures Recovered(log + more) == Reload(Recovered(log).value, more)
  {
    ReloadConcat(Empty(EMPTY_SCHEMA), log, more);
  }

  // ---------- the schema ----------

  lemma TwinAccepts(r: State, st: State, candidate: Schema)
    requires Twin(r, st) && r.schema == st.schema && AcceptsSchema(st, candidate)
    ensures AcceptsSchema(r, candidate)
  {
    forall t | t in r.schema.conceptTypes ensures TypeKept(r, candidate, t) { assert TypeKept(st, candidate, t); }
    forall t | t in r.schema.relationTypes ensures RelationTypeKept(r, candidate, t) {
      assert RelationTypeKept(st, candidate, t);
      if id :| id in r.relations && r.relations[id].rtype == t { TwinType(r, st, id); }
    }
  }

  /** `st` under the journaled schema accepts the next one. */
  lemma SchemaRecovers(st: State, log: seq<LogRecord>, schema: Schema, next: State)
    requires LastSchema(log).Some? && WellKeyed(schema) && WellKeyed(LastSchema(log).value)
    requires AcceptsSchema(st.(schema := LastSchema(log).value), schema) && WellFormed(st) && next == st.(schema := schema)
    ensures var more := log + [OntologyLog(schema)];
      && (Restored(st, log) ==> Restored(next, more)) && (RestoredById(st, log) ==> RestoredById(next, more))
      && (Recovers(st, log) ==> Recovers(next, more))
  {
    hide AcceptsSchema, Straight, Replayable, NamesIds;
    var more := [OntologyLog(schema)];
    if Restored(st, log) {
      ReloadOn(log, more);
      var r := Recovered(log).value;
      TwinAccepts(r, st.(schema := LastSchema(log).value), schema);
      assert Reload(r, more) == Some(r.(schema := schema)) by { assert more[1..] == []; }
      assert (log + more)[|log + more| - 1] == OntologyLog(schema);
    }
    RecoversOn(st, log, more, next);
  }

  // ---------- concepts ----------

  lemma {:induction false} ConceptsReload(r: State, st: State, batch: seq<Concept>)
    requires Twin(r, st) && r.schema == st.schema && ConceptsPending(st, batch)
    ensures var n := Reload(r, ConceptRecords(batch));
      && n.Some? && Twin(n.value, AppliedAll(st, batch)) && n.value.schema == r.schema
      && n.value.order == r.order && AppliedAll(st, batch).order == st.order
      && n.value.nextRelation == r.nextRelation && AppliedAll(st, batch).nextRelation == st.nextRelation
    decreases batch
  {
    hide Admissible, ConceptsPending, WellFormed;
    if batch != [] {
      WatermarkKeepsPending(st, r, batch);
      BatchStep(st, batch);
      BatchStep(r, batch);
      assert ConceptRecords(batch)[0] == ConceptLog(batch[0]) && ConceptRecords(batch)[1..] == ConceptRecords(batch[1..]);
      ConceptsReload(Installed(r, batch[0]), Installed(st, batch[0]), batch[1..]);
    }
  }

  lemma ConceptsRecover(st: State, log: seq<LogRecord>, batch: seq<Concept>)
    requires LastSchema(log) == Some(st.schema) && ConceptsPending(st, batch)
    ensures var next, more := AppliedAll(st, batch), log + ConceptRecords(batch);
      && (Restored(st, log) ==> Restored(next, more)) && (RestoredById(st, log) ==> RestoredById(next, more))
      && (Recovers(st, log) ==> Recovers(next, more))
  {
    hide ConceptsPending, Twin, Straight, Replayable, ReloadOne, NamesIds;
    var more := ConceptRecords(batch);
    if Restored(st, log) {
      ReloadOn(log, more);
      ConceptsReload(Recovered(log).value, st, batch);
      LastSchemaAppend(log, more);
    }
    RecoversOn(st, log, more, AppliedAll(st, batch));
  }

  // ---------- relations ----------

  function RelationRecords(batch: seq<Relation>): (r: seq<LogRecord>)
    ensures forall i :: 0 <= i < |r| ==> r[i].RelationLog?
  {
    seq(|batch|, i requires 0 <= i < |batch| => RelationLog(batch[i]))
  }

  /** Each relation is accepted after the edges there and those before it. */
  ghost predicate DueAfter(schema: Schema, concepts: map<nat, Concept>, log: seq<Edge>, batch: seq<Relation>) {
    forall i :: 0 <= i < |batch| ==> LogRefusal(schema, concepts, log + EffectsAll(schema, batch[..i]), batch[i]).None?
  }

  lemma DueNext(schema: Schema, concepts: map<nat, Concept>, log: seq<Edge>, batch: seq<Relation>)
    requires DueAfter(schema, concepts, log, batch) && batch != []
    ensures LogRefusal(schema, concepts, log, batch[0]).None?
    ensures DueAfter(schema, concepts, log + Effects(schema, batch[0]), batch[1..])
  {
    hide LogRefusal;
    assert batch[..0] == [] && log + EffectsAll(schema, []) == log;
    forall i | 0 <= i < |batch[1..]|
      ensures LogRefusal(schema, concepts, log + Effects(schema, batch[0]) + EffectsAll(schema, batch[1..][..i]), batch[1..][i]).None?
    {
      assert batch[..i + 1][1..] == batch[1..][..i] && batch[..i + 1][0] == batch[0];
      EffectsFront(schema, batch[..i + 1]);
      ConcatAssoc(log, Effects(schema, batch[0]), EffectsAll(schema, batch[1..][..i]));
    }
  }

  /** A journaled relation replayed while the live graph applies it. */
  lemma RelationReload(r: State, st: State, rel: Relation)
    requires Twin(r, st) && r.schema == st.schema && Flushable(st, rel)
    requires LogRefusal(st.schema, st.concepts, Edges(st), rel).None?
    ensures var n := ReloadOne(r, RelationLog(rel));
      n.Some? && Twin(n.value, ApplyRelation(st, rel).0) && n.value.schema == r.schema
  {
    hide LogRefusal;
    AddedLog(r, rel);
    AppliedLog(st, rel);
  }

  /** The ids that a relation takes: its own, if free, and the next for its inverse. */
  lemma RelationIds(r: State, st: State, rel: Relation)
    requires Twin(r, st) && r.order == st.order && r.schema == st.schema && Flushable(st, rel) && Refusal(r, rel).None?
    ensures var n, next, m := AddRelation(r, rel).0, ApplyRelation(st, rel).0, Raised(r.nextRelation, rel.id);
      if Mirrored(st.schema, rel) then
        && n.order == r.order + [rel.id] + [m] && n.nextRelation == m + 1
        && next.order == r.order + [rel.id] + [st.nextRelation] && next.nextRelation == st.nextRelation + 1
      else
        n.order == next.order && n.nextRelation == m && next.nextRelation == st.nextRelation
  {
    hide Refusal, WellFormed;
    TwinIds(r, st);
  }

  ghost predicate AllDue(st: State, batch: seq<Relation>) {
    WellOrdered(st) && DueAfter(st.schema, st.concepts, Edges(st), batch)
  }

  lemma NextLinked(st: State, batch: seq<Relation>)
    requires WellFormed(st) && RelationsPending(st, batch) && AllDue(st, batch) && batch != []
    ensures Flushable(st, batch[0]) && LogRefusal(st.schema, st.concepts, Edges(st), batch[0]).None?
    ensures var next := ApplyRelation(st, batch[0]).0;
      && next.schema == st.schema && next.concepts == st.concepts && RelationsPending(next, batch[1..]) && AllDue(next, batch[1..])
  {
    hide LogRefusal, DueAfter;
    assert Flushable(st, batch[0]);
    DueNext(st.schema, st.concepts, Edges(st), batch);
    FlushStep(st, batch);
    AppliedLog(st, batch[0]);
  }

  lemma {:induction false} RelationsReload(r: State, st: State, batch: seq<Relation>)
    requires Twin(r, st) && r.schema == st.schema && RelationsPending(st, batch) && AllDue(st, batch)
    ensures var n := Reload(r, RelationRecords(batch));
      n.Some? && Twin(n.value, LinkedAll(st, batch)) && n.value.schema == r.schema
    decreases batch
  {
    hide LogRefusal, DueAfter, ReloadOne, WellFormed, Mirrored, Edges, RelationsPending, ApplyRelation, Flushable;
    if batch != [] {
      NextLinked(st, batch);
      RelationReload(r, st, batch[0]);
      assert RelationRecords(batch)[0] == RelationLog(batch[0]) && RelationRecords(batch)[1..] == RelationRecords(batch[1..]);
      RelationsReload(ReloadOne(r, RelationLog(batch[0])).value, ApplyRelation(st, batch[0]).0, batch[1..]);
    }
  }

  /** The relation with the newest id of all comes no later than the first of a
      symmetric type; or no id was given away that the journal does not know. */
  predicate KeepsIds(schema: Schema, live: nat, loaded: nat, batch: seq<Relation>) {
    loaded == live || forall j :: 0 <= j < |batch| && Mirrored(schema, batch[j]) ==> NewestBy(live, batch, j)
  }

  predicate NewestBy(live: nat, batch: seq<Relation>, j: nat)
    requires j < |batch|
  {
    exists i :: 0 <= i <= j && batch[i].id + 1 == live
  }

  lemma KeepsPlain(schema: Schema, live: nat, loaded: nat, batch: seq<Relation>)
    requires batch != [] && loaded <= live && batch[0].id < live && !Mirrored(schema, batch[0])
    ensures KeepsIds(schema, live, loaded, batch) <==> KeepsIds(schema, live, Raised(loaded, batch[0].id), batch[1..])
  {
    hide Mirrored;
    var rest := batch[1..];
    if batch[0].id + 1 != live {
      forall j | 0 <= j < |rest| ensures NewestBy(live, rest, j) <==> NewestBy(live, batch, j + 1) {
        if i :| 0 <= i <= j && rest[i].id + 1 == live { assert batch[i + 1] == rest[i]; }
        if i :| 0 <= i <= j + 1 && batch[i].id + 1 == live { assert batch[i] == rest[i - 1]; }
      }
      if KeepsIds(schema, live, loaded, batch) {
        forall j | 0 <= j < |rest| && Mirrored(schema, rest[j]) && loaded != live ensures NewestBy(live, rest, j) {
          assert rest[j] == batch[j + 1];
        }
      } else {
        var j :| 0 <= j < |batch| && Mirrored(schema, batch[j]) && !NewestBy(live, batch, j);
        assert rest[j - 1] == batch[j] && !NewestBy(live, rest, j - 1);
      }
    } else {
      forall j | 0 <= j < |batch| ensures NewestBy(live, batch, j) { assert batch[0].id + 1 == live; }
    }
  }

  lemma KeepsMirrored(schema: Schema, live: nat, loaded: nat, batch: seq<Relation>)
    requires batch != [] && loaded <= live && batch[0].id < live && Mirrored(schema, batch[0])
    ensures KeepsIds(schema, live, loaded, batch) <==> Raised(loaded, batch[0].id) == live
  {
    hide Mirrored;
    if batch[0].id + 1 == live {
      forall j | 0 <= j < |batch| ensures NewestBy(live, batch, j) { assert batch[0].id + 1 == live; }
    }
  }

  lemma {:induction false} LiveOrderGrows(st: State, batch: seq<Relation>)
    ensures st.order <= LinkedAll(st, batch).order
    decreases batch
  {
    if batch != [] { LiveOrderGrows(ApplyRelation(st, batch[0]).0, batch[1..]); }
  }

  lemma {:induction false} LoadedOrderGrows(r: State, batch: seq<Relation>)
    requires Reload(r, RelationRecords(batch)).Some?
    ensures r.order <= Reload(r, RelationRecords(batch)).value.order
    decreases batch
  {
    hide Refusal;
    if batch != [] {
      assert RelationRecords(batch)[0] == RelationLog(batch[0]) && RelationRecords(batch)[1..] == RelationRecords(batch[1..]);
      LoadedOrderGrows(ReloadOne(r, RelationLog(batch[0])).value, batch[1..]);
    }
  }

  /** A flushed batch comes back under its own ids exactly when it keeps them. */
  lemma {:induction false} RelationsKeepIds(r: State, st: State, batch: seq<Relation>)
    requires Twin(r, st) && r.schema == st.schema && RelationsPending(st, batch) && AllDue(st, batch)
    requires r.order == st.order && r.nextRelation <= st.nextRelation
    ensures var n := Reload(r, RelationRecords(batch));
      && n.Some? && (n.value.order == LinkedAll(st, batch).order <==> KeepsIds(st.schema, st.nextRelation, r.nextRelation, batch))
      && (n.value.order == LinkedAll(st, batch).order ==> n.value.nextRelation <= LinkedAll(st, batch).nextRelation)
    decreases batch
  {
    hide LogRefusal, DueAfter, WellFormed, Mirrored, Edges, RelationsPending, ApplyRelation, Refusal;
    RelationsReload(r, st, batch);
    if batch != [] {
      var rel, rest := batch[0], batch[1..];
      NextLinked(st, batch);
      RelationReload(r, st, rel);
      var n, next := ReloadOne(r, RelationLog(rel)).value, ApplyRelation(st, rel).0;
      RelationIds(r, st, rel);
      assert RelationRecords(batch)[0] == RelationLog(rel) && RelationRecords(batch)[1..] == RelationRecords(rest);
      if Mirrored(st.schema, rel) {
        KeepsMirrored(st.schema, st.nextRelation, r.nextRelation, batch);
        if Raised(r.nextRelation, rel.id) == st.nextRelation {
          RelationsKeepIds(n, next, rest);
        } else {
          LiveOrderGrows(next, rest);
          LoadedOrderGrows(n, rest);
          assert n.order[|r.order| + 1] != next.order[|r.order| + 1];
        }
      } else {
        KeepsPlain(st.schema, st.nextRelation, r.nextRelation, batch);
        RelationsKeepIds(n, next, rest);
      }
    }
  }

  lemma StraightRelations(log: seq<LogRecord>, schema: Schema, batch: seq<Relation>)
    requires LastSchema(log) == Some(schema) && Straight(log + RelationRecords(batch))
    ensures forall i :: 0 <= i < |batch| ==> !Mirrored(schema, batch[i])
  {
    var all := log + RelationRecords(batch);
    forall i | 0 <= i < |batch| ensures !Mirrored(schema, batch[i]) {
      assert all[|log| + i] == RelationLog(batch[i]) && all[..|log| + i] == log + RelationRecords(batch)[..i];
      LastSchemaAppend(log, RelationRecords(batch)[..i]);
    }
  }

  lemma DueBatch(st: State, batch: seq<Relation>)
    requires WellFormed(st) && RelationsDue(st, batch)
    ensures AllDue(st, batch)
  {
    forall i | 0 <= i < |batch|
      ensures LogRefusal(st.schema, st.concepts, Edges(st) + EffectsAll(st.schema, batch[..i]), batch[i]).None?
    {
      DueInOrder(st, batch, i);
    }
  }

  /** The batch keeps its ids, as far as the journal goes. */
  ghost predicate BatchKeepsIds(st: State, log: seq<LogRecord>, batch: seq<Relation>) {
    Recovered(log).Some? && KeepsIds(st.schema, st.nextRelation, Recovered(log).value.nextRelation, batch)
  }

  lemma NoneKeepIds(st: State, log: seq<LogRecord>)
    ensures RestoredById(st, log) ==> BatchKeepsIds(st, log, [])
  {
  }

  lemma RelationsRecover(st: State, log: seq<LogRecord>, batch: seq<Relation>)
    requires LastSchema(log) == Some(st.schema) && RelationsPending(st, batch) && RelationsDue(st, batch)
    ensures var next, more := LinkedAll(st, batch), log + RelationRecords(batch);
      && (Restored(st, log) ==> Restored(next, more))
      && (RestoredById(st, log) ==> (RestoredById(next, more) <==> BatchKeepsIds(st, log, batch)))
      && (Recovers(st, log) ==> Recovers(next, more))
  {
    hide RelationsPending, RelationsDue, Straight, Replayable, ReloadOne, WellFormed, AllDue, NamesIds, Mirrored;
    var more := RelationRecords(batch);
    if Restored(st, log) {
      ReloadOn(log, more);
      DueBatch(st, batch);
      RelationsReload(Recovered(log).value, st, batch);
      LastSchemaAppend(log, more);
      if RestoredById(st, log) { RelationsKeepIds(Recovered(log).value, st, batch); }
    }
    if Straight(log + more) { StraightRelations(log, st.schema, batch); }
    RecoversOn(st, log, more, LinkedAll(st, batch));
  }

  // ---------- updates ----------

  function UpdateRecords(batch: seq<Relation>): (r: seq<LogRecord>)
    ensures forall i :: 0 <= i < |r| ==> r[i].UpdateRelationLog?
  {
    seq(|batch|, i requires 0 <= i < |batch| => UpdateRelationLog(batch[i]))
  }

  /** The journaled schema and the live one agree on which edges have two sides. */
  predicate SameSides(a: Schema, b: Schema, batch: seq<Relation>) {
    forall i :: 0 <= i < |batch| ==> IsSymmetric(a, batch[i].rtype) == IsSymmetric(b, batch[i].rtype)
  }

  /** An update does the same wherever the same edges have two sides. */
  lemma SameUpdate(r: State, st: State, v: Relation, u: Relation)
    requires r.relations == st.relations && r.order == st.order && u.id in st.relations
    requires v.id == u.id && v.weight == u.weight && v.properties == u.properties
    requires IsSymmetric(r.schema, st.relations[u.id].rtype) == IsSymmetric(st.schema, st.relations[u.id].rtype)
    ensures var n, next := ApplyRelationUpdate(r, v).0, ApplyRelationUpdate(st, u).0;
      && n.relations == next.relations && n.order == next.order && n == r.(relations := n.relations)
      && next == st.(relations := next.relations)
  {
    var r1, st1 := WithWeight(r, u.id, u.weight, u.properties), WithWeight(st, u.id, u.weight, u.properties);
    assert MirrorOf(r1, r1.relations[u.id]) == MirrorOf(st1, st1.relations[u.id]);
  }

  lemma UpdateReloads(r: State, u: Relation)
    requires WellFormed(r) && u.id in r.relations
    ensures var v := r.relations[u.id].(weight := u.weight, properties := u.properties);
      && v.id == u.id && ReloadOne(r, UpdateRelationLog(u)) == Some(ApplyRelationUpdate(r, v).0) && WellFormed(ApplyRelationUpdate(r, v).0)
  {
    hide ApplyRelationUpdate;
    RelationUpdateWellFormed(r, r.relations[u.id].(weight := u.weight, properties := u.properties));
  }

  lemma UpdateReload(r: State, st: State, u: Relation)
    requires Twin(r, st) && r.order == st.order && u.id in st.relations && EndsOf(st.relations[u.id]) == EndsOf(u)
    requires IsSymmetric(r.schema, u.rtype) == IsSymmetric(st.schema, u.rtype)
    ensures var n := ReloadOne(r, UpdateRelationLog(u));
      && n.Some? && n.value.schema == r.schema && n.value.order == r.order && n.value.nextRelation == r.nextRelation
      && Twin(n.value, ApplyRelationUpdate(st, u).0)
  {
    hide WellFormed, ApplyRelationUpdate, ReloadOne, IsSymmetric;
    TwinIds(r, st);
    var v := r.relations[u.id].(weight := u.weight, properties := u.properties);
    UpdateReloads(r, u);
    RelationUpdateWellFormed(st, u);
    SameUpdate(r, st, v, u);
    SameGraphTwin(ApplyRelationUpdate(r, v).0, ApplyRelationUpdate(st, u).0);
  }

  lemma {:induction false} UpdatesReload(r: State, st: State, batch: seq<Relation>)
    requires Twin(r, st) && r.order == st.order && UpdatesPending(st, batch) && SameSides(r.schema, st.schema, batch)
    ensures var n := Reload(r, UpdateRecords(batch));
      && n.Some? && n.value.schema == r.schema && n.value.order == r.order && n.value.nextRelation == r.nextRelation
      && Twin(n.value, UpdatedAll(st, batch))
    ensures UpdatedAll(st, batch).order == st.order && UpdatedAll(st, batch).nextRelation == st.nextRelation
    decreases batch
  {
    hide WellFormed, ReloadOne, Twin;
    if batch != [] {
      var u := batch[0];
      assert u.id in st.relations;
      UpdateReload(r, st, u);
      UpdatedShape(st, u);
      assert UpdatesPending(st, batch[1..]);
      UpdatesStayPending(st, ApplyRelationUpdate(st, u).0, batch[1..]);
      assert UpdateRecords(batch)[0] == UpdateRelationLog(u) && UpdateRecords(batch)[1..] == UpdateRecords(batch[1..]);
      UpdatesReload(ReloadOne(r, UpdateRelationLog(u)).value, ApplyRelationUpdate(st, u).0, batch[1..]);
    }
  }

  lemma UpdatesRecover(st: State, log: seq<LogRecord>, batch: seq<Relation>)
    requires LastSchema(log).Some? && batch != [] && UpdatesPending(st, batch)
    requires SameSides(LastSchema(log).value, st.schema, batch)
    ensures var next, more := UpdatedAll(st, batch), log + UpdateRecords(batch);
      (RestoredById(st, log) ==> RestoredById(next, more)) && (Recovers(st, log) ==> Recovers(next, more))
  {
    hide UpdatesPending, Straight, Replayable, ReloadOne, WellFormed;
    var more := UpdateRecords(batch);
    assert ById(more[0]);
    if RestoredById(st, log) {
      ReloadOn(log, more);
      UpdatesReload(Recovered(log).value, st, batch);
      LastSchemaAppend(log, more);
    }
    RecoversOn(st, log, more, UpdatedAll(st, batch));
  }

  // ---------- deletions ----------

  /** The edges that do not touch a concept. */
  function Untouching(log: seq<Edge>, id: nat): seq<Edge> {
    if log == [] then [] else
    var l := |log| - 1;
    if log[l].source == id || log[l].target == id then Untouching(log[..l], id) else Untouching(log[..l], id) + [log[l]]
  }

  lemma {:induction false} EdgesAround(relations: map<nat, Relation>, order: seq<nat>, gone: set<nat>, id: nat)
    requires forall x :: x in order ==> x in relations && (x in gone <==> Incident(relations[x], id))
    ensures forall x :: x in Minus(order, gone) ==> x in relations - gone
    ensures EdgeLog(relations - gone, Minus(order, gone)) == Untouching(EdgeLog(relations, order), id)
  {
    MinusMembers(order, gone);
    if order != [] {
      var l := |order| - 1;
      EdgesAround(relations, order[..l], gone, id);
      assert order[l] in order;
      assert EdgeLog(relations, order)[..l] == EdgeLog(relations, order[..l]);
    }
  }

  lemma ConceptRemoved(st: State, id: nat)
    requires WellFormed(st) && id in st.concepts
    ensures var next := GraphState.RemoveConcept(st, id).0;
      WellFormed(next) && next.concepts == st.concepts - {id} && Edges(next) == Untouching(Edges(st), id)
  {
    RemovedWellFormed(st, id);
    EdgesAround(st.relations, st.order, IncidentSet(st.relations, id), id);
  }

  lemma TwinRemoved(r: State, st: State, id: nat)
    requires Twin(r, st) && id in st.concepts
    ensures var n, next := GraphState.RemoveConcept(r, id).0, GraphState.RemoveConcept(st, id).0;
      Twin(n, next) && n.schema == r.schema && n.nextRelation == r.nextRelation && (r.order == st.order ==> n.order == next.order)
  {
    ConceptRemoved(r, id);
    ConceptRemoved(st, id);
    if r.order == st.order { SameIds(r, st); }
  }

  /** Tombstones of relations that are gone already. */
  lemma {:induction false} GoneAlready(st: State, more: seq<LogRecord>)
    requires forall i :: 0 <= i < |more| ==> more[i].DeleteRelationLog? && more[i].id !in st.relations
    ensures Reload(st, more) == Some(st)
    decreases more
  {
    if more != [] { GoneAlready(st, more[1..]); }
  }

  predicate Tombstones(st: State, id: nat, more: seq<LogRecord>) {
    forall i :: 0 <= i < |more| ==>
      more[i].DeleteRelationLog? && (more[i].id in st.relations ==> Incident(st.relations[more[i].id], id))
  }

  /** One concept and the tombstones of edges around it. */
  lemma DeletionReload(r: State, st: State, id: nat, ctype: string, more: seq<LogRecord>)
    requires Twin(r, st) && id in st.concepts && (more != [] ==> r.order == st.order)
    requires Tombstones(st, id, more)
    ensures var n, next := Reload(r, [DeleteConceptLog(id, ctype)] + more), GraphState.RemoveConcept(st, id).0;
      && n.Some? && Twin(n.value, next) && n.value.schema == r.schema && n.value.nextRelation == r.nextRelation
      && (r.order == st.order ==> n.value.order == next.order)
  {
    hide Twin;
    TwinRemoved(r, st, id);
    var n := GraphState.RemoveConcept(r, id).0;
    if more != [] {
      TwinIds(r, st);
      forall i | 0 <= i < |more| ensures more[i].id !in n.relations { assert IncidentSet(r.relations, id) == IncidentSet(st.relations, id); }
    }
    GoneAlready(n, more);
    assert ([DeleteConceptLog(id, ctype)] + more)[1..] == more;
  }

  lemma TakenAround(st: State, before: seq<nat>, id: nat)
    requires NoDup(before) && (forall x :: x in before ==> x in st.concepts) && id in st.concepts && id !in before
    ensures id in RemovedAll(st, before).concepts
    ensures Tombstones(RemovedAll(st, before), id, RelationDeletions(st.relations, Minus(IncidentIds(st, id), Around(st, before))))
  {
    RemovedAllExact(st, before);
    TakenExact(st, before, id);
    var taken := Minus(IncidentIds(st, id), Around(st, before));
    forall i | 0 <= i < |taken| ensures taken[i] in IncidentSet(st.relations, id) { assert taken[i] in Elems(taken); }
  }

  lemma {:induction false} DeletionsReload(r: State, st: State, targets: seq<nat>)
    requires Twin(r, st) && NoDup(targets) && forall x :: x in targets ==> x in st.concepts
    requires NamesIds(DeletionLog(st, targets)) ==> r.order == st.order
    ensures var n := Reload(r, DeletionLog(st, targets));
      && n.Some? && Twin(n.value, RemovedAll(st, targets)) && n.value.schema == r.schema
      && (r.order == st.order ==> n.value.order == RemovedAll(st, targets).order)
      && n.value.nextRelation == r.nextRelation && RemovedAll(st, targets).nextRelation == st.nextRelation
  {
    hide Twin, ReloadOne;
    if targets != [] {
      var l := |targets| - 1;
      var before, id := targets[..l], targets[l];
      assert targets == before + [id];
      var ctype := st.concepts[id].ctype;
      var taken := Minus(IncidentIds(st, id), Around(st, before));
      var more := RelationDeletions(st.relations, taken);
      DeletionLogSnoc(st, before, id);
      var all := DeletionLog(st, targets);
      assert all == DeletionLog(st, before) + ([DeleteConceptLog(id, ctype)] + more);
      forall k | 0 <= k < |DeletionLog(st, before)| ensures DeletionLog(st, before)[k] == all[k] { }
      DeletionsReload(r, st, before);
      var mid := Reload(r, DeletionLog(st, before)).value;
      if more != [] { assert ById(all[|DeletionLog(st, before)| + 1]) by { assert ById(more[0]); } }
      TakenAround(st, before, id);
      DeletionReload(mid, RemovedAll(st, before), id, ctype, more);
      ReloadConcat(r, DeletionLog(st, before), [DeleteConceptLog(id, ctype)] + more);
    }
  }

  lemma DeletionsRecover(st: State, log: seq<LogRecord>, targets: seq<nat>)
    requires NoDup(targets) && forall x :: x in targets ==> x in st.concepts
    requires forall i :: 0 <= i < |DeletionLog(st, targets)| ==> !DeletionLog(st, targets)[i].OntologyLog?
    ensures var next, more := RemovedAll(st, targets), log + DeletionLog(st, targets);
      (RestoredById(st, log) ==> RestoredById(next, more)) && (Recovers(st, log) ==> Recovers(next, more))
  {
    hide Straight, Replayable, ReloadOne, WellFormed, Twin;
    var more := DeletionLog(st, targets);
    if Restored(st, log) && (NamesIds(more) ==> RestoredById(st, log)) {
      ReloadOn(log, more);
      DeletionsReload(Recovered(log).value, st, targets);
      LastSchemaAppend(log, more);
    }
    RecoversOn(st, log, more, RemovedAll(st, targets));
  }

  function DeletedIds(more: seq<LogRecord>): set<nat> {
    set i | 0 <= i < |more| && more[i].DeleteRelationLog? :: more[i].id
  }

  /** The graph without some edges. */
  function Unlinked(st: State, gone: set<nat>): State {
    st.(relations := st.relations - gone, order := Minus(st.order, gone))
  }

  lemma UnlinkedOne(st: State, id: nat)
    requires WellFormed(st)
    ensures GraphState.RemoveRelation(st, id).0 == Unlinked(st, {id}) && WellFormed(Unlinked(st, {id}))
  {
    UnlinkedWellFormed(st, {id});
    if id !in st.relations { MinusNothing(st.order, {id}); }
  }

  lemma UnlinkedTwice(st: State, a: set<nat>, b: set<nat>)
    ensures Unlinked(Unlinked(st, a), b) == Unlinked(st, a + b)
  {
    MinusTwice(st.order, a, b);
    assert st.relations - a - b == st.relations - (a + b);
  }

  lemma {:induction false} TombstonesReload(st: State, more: seq<LogRecord>)
    requires WellFormed(st) && forall i :: 0 <= i < |more| ==> more[i].DeleteRelationLog?
    ensures Reload(st, more) == Some(Unlinked(st, DeletedIds(more)))
    decreases more
  {
    hide WellFormed, Unlinked, Minus;
    if more == [] {
      assert DeletedIds(more) == {};
      UnlinkedNone(st);
    } else {
      var id, rest := more[0].id, more[1..];
      assert DeletedIds(more) == {id} + DeletedIds(rest) by {
        assert forall i :: 0 <= i < |rest| ==> rest[i] == more[i + 1];
      }
      UnlinkedOne(st, id);
      UnlinkedTwice(st, {id}, DeletedIds(rest));
      TombstonesReload(Unlinked(st, {id}), rest);
    }
  }

  lemma UnlinkedNone(st: State)
    ensures Unlinked(st, {}) == st
  {
    MinusNothing(st.order, {});
    assert st.relations - {} == st.relations;
  }

  lemma LinksRecover(st: State, log: seq<LogRecord>, more: seq<LogRecord>)
    requires WellFormed(st) && more != [] && forall i :: 0 <= i < |more| ==> more[i].DeleteRelationLog?
    ensures var next := Unlinked(st, DeletedIds(more));
      (RestoredById(st, log) ==> RestoredById(next, log + more)) && (Recovers(st, log) ==> Recovers(next, log + more))
  {
    hide Straight, Replayable, ReloadOne;
    var next := Unlinked(st, DeletedIds(more));
    assert ById(more[0]);
    if RestoredById(st, log) {
      ReloadOn(log, more);
      var r := Recovered(log).value;
      TwinIds(r, st);
      TombstonesReload(r, more);
      UnlinkedWellFormed(r, DeletedIds(more));
      UnlinkedWellFormed(st, DeletedIds(more));
      LastSchemaAppend(log, more);
    }
    RecoversOn(st, log, more, next);
  }

  // ---------- memory and disk in step ----------

  /** The journal holds the concepts of the graph, and a restart finds the
      graph; unless things went astray, an update having been journaled under
      another idea of which edges have two sides than the graph had. */
  ghost predicate Backed(st: State, log: seq<LogRecord>, astray: bool) {
    Durable(st, log) && (!astray ==> Recovers(st, log))
  }

  /** Neither restored edges nor restored ids are lost. */
  ghost predicate StaysRestored(a: State, log: seq<LogRecord>, b: State, more: seq<LogRecord>) {
    (Restored(a, log) ==> Restored(b, more)) && (RestoredById(a, log) ==> RestoredById(b, more))
  }

  lemma UnmovedBacked(a: State, b: State, log: seq<LogRecord>, astray: bool)
    requires WellFormed(b) && b.concepts == a.concepts && b.relations == a.relations && b.order == a.order
    requires b.nextRelation >= a.nextRelation
    ensures Backed(a, log, astray) ==> Backed(b, log, astray)
  {
    hide WellFormed, Replayable, Straight, Recovered;
  }

  /** Only an id counter moved. */
  lemma PreparedBacked(st: State, log: seq<LogRecord>, s: Session, next: State, astray: bool)
    requires SessionOk(st, log, s)
    requires next == st.(nextConcept := next.nextConcept, nextRelation := next.nextRelation)
    requires next.nextConcept >= st.nextConcept && next.nextRelation >= st.nextRelation
    ensures Backed(st, log, astray) ==> Backed(next, log, astray)
  {
    UnmovedBacked(st, next, log, astray);
  }

  lemma SchemaBacked(st: State, log: seq<LogRecord>, s: Session, astray: bool)
    requires SessionOk(st, log, s) && s.schemaDirty
    ensures var more := log + [OntologyLog(st.schema)];
      StaysRestored(st, log, st, more) && (Backed(st, log, astray) ==> Backed(st, more, astray))
  {
    hide Recovers, Restored, RestoredById, AcceptsSchema, WellFormed, ConceptsPending, RelationsPending, NamesPending, RelationsDue;
    SameAccepted(st.(schema := s.baseline.value), st.schema);
    SessionWellFormed(st, log, s);
    SchemaRecovers(st, log, st.schema, st);
    JournaledOthers(log, [OntologyLog(st.schema)]);
  }

  lemma SessionWellFormed(st: State, log: seq<LogRecord>, s: Session)
    requires SessionOk(st, log, s)
    ensures WellFormed(st) && WellKeyed(st.schema)
  {
  }

  lemma ReplacedBacked(st: State, log: seq<LogRecord>, s: Session, candidate: Schema, astray: bool)
    requires SessionOk(st, log, s) && !s.schemaDirty && AcceptsSchema(st, candidate) && WellKeyed(candidate)
    ensures var next, more := st.(schema := candidate), log + [OntologyLog(candidate)];
      StaysRestored(st, log, next, more) && (Backed(st, log, astray) ==> Backed(next, more, astray))
  {
    hide Recovers, Restored, RestoredById, AcceptsSchema, WellFormed, ConceptsPending, RelationsPending, NamesPending, RelationsDue;
    SessionWellFormed(st, log, s);
    SchemaRecovers(st, log, candidate, st.(schema := candidate));
    JournaledOthers(log, [OntologyLog(candidate)]);
  }

  lemma ConceptsBacked(st: State, log: seq<LogRecord>, s: Session, batch: seq<Concept>, astray: bool)
    requires SessionOk(st, log, s) && !s.schemaDirty && s.pending == [] && s.pendingRelations == [] && ConceptsPending(st, batch)
    ensures var next, more := AppliedAll(st, batch), log + ConceptRecords(batch);
      StaysRestored(st, log, next, more) && (Backed(st, log, astray) ==> Backed(next, more, astray))
  {
    hide Recovers, Restored, RestoredById, WellFormed, ConceptsPending, RelationsPending, NamesPending, RelationsDue;
    ConceptsRecover(st, log, batch);
    AppliedAllOk(st, log, s, batch);
    JournaledConcepts(log, batch);
  }

  lemma RelationsBacked(st: State, log: seq<LogRecord>, s: Session, astray: bool)
    requires SessionOk(st, log, s) && s.pendingRelations != []
    ensures var next, more := LinkedAll(st, s.pendingRelations), log + RelationRecords(s.pendingRelations);
      && (Restored(st, log) ==> Restored(next, more))
      && (RestoredById(st, log) ==> (RestoredById(next, more) <==> BatchKeepsIds(st, log, s.pendingRelations)))
      && (Backed(st, log, astray) ==> Backed(next, more, astray))
  {
    hide Recovers, Restored, RestoredById, WellFormed, ConceptsPending, RelationsPending, NamesPending, RelationsDue, BatchKeepsIds;
    var batch := s.pendingRelations;
    RelationsRecover(st, log, batch);
    LinkedConcepts(st, batch);
    JournaledOthers(log, RelationRecords(batch));
  }

  lemma {:induction false} LinkedConcepts(st: State, batch: seq<Relation>)
    ensures LinkedAll(st, batch).concepts == st.concepts
    decreases batch
  {
    if batch != [] { LinkedConcepts(ApplyRelation(st, batch[0]).0, batch[1..]); }
  }

  /** Whether the journaled schema and the live one differ on the batch. */
  ghost predicate Turns(st: State, log: seq<LogRecord>, batch: seq<Relation>) {
    LastSchema(log).Some? && !SameSides(LastSchema(log).value, st.schema, batch)
  }

  /** The journaled schema and the live one have the same relation types. */
  ghost predicate SameTypes(st: State, log: seq<LogRecord>) {
    LastSchema(log).Some? && LastSchema(log).value.relationTypes == st.schema.relationTypes
  }

  lemma UpdatesBacked(st: State, log: seq<LogRecord>, s: Session, batch: seq<Relation>, astray: bool)
    requires SessionOk(st, log, s) && UpdatesPending(st, batch) && batch != []
    ensures var next, more := UpdatedAll(st, batch), log + UpdateRecords(batch);
      && (RestoredById(st, log) && !Turns(st, log, batch) ==> RestoredById(next, more))
      && (Backed(st, log, astray) ==> Backed(next, more, astray || Turns(st, log, batch)))
  {
    hide Recovers, Restored, RestoredById, WellFormed, ConceptsPending, RelationsPending, NamesPending, RelationsDue, UpdatesPending, SameSides;
    if !Turns(st, log, batch) { UpdatesRecover(st, log, batch); }
    UpdatedAllOk(st, log, s, batch);
    JournaledOthers(log, UpdateRecords(batch));
  }

  lemma LinksBacked(st: State, log: seq<LogRecord>, more: seq<LogRecord>, astray: bool)
    requires WellFormed(st) && more != [] && forall i :: 0 <= i < |more| ==> more[i].DeleteRelationLog?
    ensures var next := Unlinked(st, DeletedIds(more));
      && (RestoredById(st, log) ==> RestoredById(next, log + more))
      && (Backed(st, log, astray) ==> Backed(next, log + more, astray))
  {
    hide Recovers, Restored, RestoredById, WellFormed;
    LinksRecover(st, log, more);
    JournaledOthers(log, more);
  }

  lemma DeletionsBacked(st: State, log: seq<LogRecord>, targets: seq<nat>, astray: bool)
    requires NoDup(targets) && forall x :: x in targets ==> x in st.concepts
    requires forall i :: 0 <= i < |DeletionLog(st, targets)| ==> !DeletionLog(st, targets)[i].OntologyLog?
    ensures var next, more := RemovedAll(st, targets), log + DeletionLog(st, targets);
      && (RestoredById(st, log) ==> RestoredById(next, more)) && (Backed(st, log, astray) ==> Backed(next, more, astray))
  {
    hide Recovers, Restored, RestoredById, WellFormed;
    DeletionsRecover(st, log, targets);
    JournaledDeletions(log, st, targets);
    RemovedAllExact(st, targets);
  }
}
