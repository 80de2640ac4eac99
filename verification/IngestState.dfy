/** Values of the ingester: records, the journal, options, and the invariant
    that ties the pending batches, the graph and the journal together
    (crates/io/src/ingest.rs). */
module IngestState {
  import opened Collections
  import opened Errors
  import opened OntologySchema
  import opened GraphState
  import opened StateLaws
  import opened BatchLaws

  /** One durable record of the append-only journal. */
  datatype LogRecord =
    | OntologyLog(schema: Schema)
    | ConceptLog(concept: Concept)
    | RelationLog(relation: Relation)
    | UpdateRelationLog(updated: Relation)
    | DeleteConceptLog(id: nat, ctype: string)
    | DeleteRelationLog(id: nat, rtype: string)

  /** The journal of the store. An append is durable as a whole or not at all;
      `outcomes` scripts, arbitrarily, which of the coming appends fail. */
  class LogStore {
    var log: seq<LogRecord>
    var outcomes: seq<bool>

    constructor (log: seq<LogRecord>, outcomes: seq<bool>)
      ensures this.log == log && this.outcomes == outcomes
    {
      this.log, this.outcomes := log, outcomes;
    }

    method Append(records: seq<LogRecord>) returns (ok: bool)
      modifies this
      ensures log == if ok then old(log) + records else old(log)
      ensures ok <==> old(outcomes) == [] || old(outcomes)[0]
      ensures outcomes == if old(outcomes) == [] then [] else old(outcomes)[1..]
    {
      ok := outcomes == [] || outcomes[0];
      outcomes := if outcomes == [] then [] else outcomes[1..];
      if ok { log := log + records; }
    }
  }

  datatype Record =
    | OntologyRecord(schema: Schema)
    | ConceptRecord(concept: Concept)
    | RelationRecord(relation: Relation)
    | NamedRelation(rtype: string, sourceType: string, sourceName: string, targetType: string, targetName: string,
                    weight: int, properties: Props)
    | ConceptTypeDecl(decl: ConceptType)
    | RelationTypeDecl(relationType: RelationType)

  datatype Options = Options(
    upsert: bool, prune: bool, mergeProperties: bool, pruneMaxFraction: real, pruneKeep: set<string>)

  datatype IngestError =
    | GraphFailure(error: GraphError)
    | StoreFailure
    | SourceFailure
    | UnknownNamed(ctype: string, name: string)
    | PruneRefused(ctype: string, stale: nat, total: nat)

  datatype Ingested<+T> = Done(value: T) | Failed(error: IngestError)

  const INGEST_BATCH_SIZE := 256

  /** The streaming state of one ingest. */
  datatype Session = Session(
    pending: seq<Concept>, pendingNames: map<NameKey, nat>, pendingRelations: seq<Relation>, pendingUpdates: seq<Relation>,
    declaredTypes: set<string>, declaredRelationTypes: set<string>, seenConcepts: set<nat>, seenEdges: set<(nat, nat, string)>,
    schemaDirty: bool, baseline: Option<Schema>)

  const NEW_SESSION := Session([], map[], [], [], {}, {}, {}, {}, false, None)

  // ---------- nothing moves unjournaled ----------

  /** Nothing waits for a barrier. */
  predicate Idle(s: Session) { NothingPending(s) && !s.schemaDirty }

  predicate NothingPending(s: Session) { s.pending == [] && s.pendingRelations == [] && s.pendingUpdates == [] }

  /** All but the counters that ids are drawn from. */
  predicate SameGraph(a: State, b: State) { b == a.(nextConcept := b.nextConcept, nextRelation := b.nextRelation) }

  /** The journal has grown from `n` to `m` records; if it has not, and nothing
      waits now, then nothing waited before and the graph is as it was. */
  predicate WrittenAhead(a: State, s: Session, n: nat, b: State, t: Session, m: nat) {
    n <= m && (m == n && Idle(t) ==> Idle(s) && SameGraph(a, b))
  }

  lemma AheadOnward(a: State, s: Session, n: nat, b: State, t: Session, k: nat, c: State, u: Session, m: nat)
    requires WrittenAhead(a, s, n, b, t, k) && WrittenAhead(b, t, k, c, u, m)
    ensures WrittenAhead(a, s, n, c, u, m)
  {
  }

  // ---------- schema and journal in step ----------

  function LastSchema(log: seq<LogRecord>): Option<Schema> {
    if log == [] then None else
    if log[|log| - 1].OntologyLog? then Some(log[|log| - 1].schema) else LastSchema(log[..|log| - 1])
  }

  lemma {:induction false} LastSchemaAppend(log: seq<LogRecord>, more: seq<LogRecord>)
    requires forall i :: 0 <= i < |more| ==> !more[i].OntologyLog?
    ensures LastSchema(log + more) == LastSchema(log)
  {
    if more == [] {
      assert log + more == log;
    } else {
      assert (log + more)[..|log + more| - 1] == log + more[..|more| - 1];
      LastSchemaAppend(log, more[..|more| - 1]);
    }
  }

  ghost predicate RelationTypesDeclared(st: State) {
    forall id :: id in st.relations ==> st.relations[id].rtype in st.schema.relationTypes
  }

  /** Validators accept the live schema, and it declares every live type. */
  ghost predicate SchemaSound(st: State) {
    && Acyclic(st.schema) && NamespacesOk(st.schema) && TypesDeclared(st) && RelationTypesDeclared(st)
  }

  /** `a` and `b` say the same about everything that has instances. */
  ghost predicate SameForInstances(st: State, a: Schema, b: Schema) {
    && (forall id :: id in st.concepts ==>
          var t := st.concepts[id].ctype;
          t in a.conceptTypes && t in b.conceptTypes && NsOf(a, t) == NsOf(b, t))
    && (forall id :: id in st.relations ==>
          var t := st.relations[id].rtype;
          && t in a.relationTypes && t in b.relationTypes
          && a.relationTypes[t].domain == b.relationTypes[t].domain && a.relationTypes[t].range == b.relationTypes[t].range)
  }

  lemma AcceptedSame(st: State, candidate: Schema)
    requires SchemaSound(st) && AcceptsSchema(st, candidate)
    ensures SameForInstances(st, st.schema, candidate) && SchemaSound(st.(schema := candidate))
  {
    forall id | id in st.concepts
      ensures st.concepts[id].ctype in candidate.conceptTypes
      ensures NsOf(st.schema, st.concepts[id].ctype) == NsOf(candidate, st.concepts[id].ctype)
    {
      assert TypeKept(st, candidate, st.concepts[id].ctype);
    }
    forall id | id in st.relations
      ensures var t := st.relations[id].rtype;
        && t in candidate.relationTypes && candidate.relationTypes[t].domain == st.schema.relationTypes[t].domain
        && candidate.relationTypes[t].range == st.schema.relationTypes[t].range
    {
      assert RelationTypeKept(st, candidate, st.relations[id].rtype);
    }
  }

  lemma SameAccepted(st: State, candidate: Schema)
    requires SameForInstances(st, st.schema, candidate) && Acyclic(candidate) && NamespacesOk(candidate)
    ensures AcceptsSchema(st, candidate)
  {
    forall t | t in st.schema.relationTypes ensures RelationTypeKept(st, candidate, t) { }
  }

  /** After an accepted change, the schema before it is accepted back exactly
      when it passes the validators itself and no live relation has a type that
      only the new schema declares. */
  lemma RollbackAccepted(st: State, candidate: Schema)
    requires TypesDeclared(st) && AcceptsSchema(st, candidate)
    ensures AcceptsSchema(st.(schema := candidate), st.schema) <==>
      && Acyclic(st.schema) && NamespacesOk(st.schema)
      && forall id :: id in st.relations && st.relations[id].rtype in candidate.relationTypes
           ==> st.relations[id].rtype in st.schema.relationTypes
  {
    var after := st.(schema := candidate);
    forall t | t in candidate.conceptTypes ensures TypeKept(after, st.schema, t) {
      if id :| id in st.concepts && st.concepts[id].ctype == t { assert TypeKept(st, candidate, t); }
    }
    forall t | t in candidate.relationTypes
      ensures RelationTypeKept(after, st.schema, t) <==>
        ((exists id :: id in st.relations && st.relations[id].rtype == t) ==> t in st.schema.relationTypes)
    {
      if t in st.schema.relationTypes { assert RelationTypeKept(st, candidate, t); }
    }
    if AcceptsSchema(after, st.schema) {
      forall id | id in st.relations && st.relations[id].rtype in candidate.relationTypes
        ensures st.relations[id].rtype in st.schema.relationTypes
      {
        assert RelationTypeKept(after, st.schema, st.relations[id].rtype);
      }
    }
  }

  // ---------- the session invariant ----------

  ghost predicate NamesPending(batch: seq<Concept>, names: map<NameKey, nat>) {
    && (forall i :: 0 <= i < |batch| ==> KeyOf(batch[i]) in names && names[KeyOf(batch[i])] == batch[i].id)
    && (forall k :: k in names ==> exists i :: 0 <= i < |batch| && KeyOf(batch[i]) == k)
  }

  ghost predicate BelowWatermark(st: State, batch: seq<Concept>) {
    forall i :: 0 <= i < |batch| ==> batch[i].id < st.nextConcept
  }

  function EndsOf(r: Relation): (string, nat, nat) { (r.rtype, r.source, r.target) }

  /** Updates wait only for live relations, whose ends they repeat. */
  ghost predicate UpdatesPending(st: State, updates: seq<Relation>) {
    forall i :: 0 <= i < |updates| ==>
      updates[i].id in st.relations && EndsOf(st.relations[updates[i].id]) == EndsOf(updates[i])
  }

  ghost predicate SchemaSync(st: State, log: seq<LogRecord>, s: Session) {
    if s.schemaDirty then
      && s.pendingRelations == [] && s.baseline.Some? && LastSchema(log) == s.baseline
      && WellKeyed(s.baseline.value) && Acyclic(s.baseline.value) && NamespacesOk(s.baseline.value)
      && SameForInstances(st, st.schema, s.baseline.value)
    else LastSchema(log) == Some(st.schema) && (s.baseline.Some? ==> s.baseline.value == st.schema)
  }

  ghost predicate SessionOk(st: State, log: seq<LogRecord>, s: Session) {
    && WellFormed(st) && SchemaSound(st)
    && ConceptsPending(st, s.pending) && BelowWatermark(st, s.pending) && NamesPending(s.pending, s.pendingNames)
    && RelationsPending(st, s.pendingRelations) && (s.pending != [] ==> s.pendingRelations == [])
    && RelationsDue(st, s.pendingRelations)
    && UpdatesPending(st, s.pendingUpdates)
    && SchemaSync(st, log, s)
  }

  // ---------- the view: what one-at-a-time ingestion would have reached ----------

  /** The edges once everything pending is applied, were every relation added
      one at a time. */
  ghost function EdgeView(st: State, s: Session): seq<Edge>
    requires WellOrdered(st)
  {
    Edges(st) + EffectsAll(st.schema, s.pendingRelations)
  }

  function Overlay(concepts: map<nat, Concept>, batch: seq<Concept>): map<nat, Concept>
    decreases batch
  {
    if batch == [] then concepts else Overlay(concepts[batch[0].id := batch[0]], batch[1..])
  }

  function ConceptView(st: State, s: Session): map<nat, Concept> { Overlay(st.concepts, s.pending) }

  lemma {:induction false} OverlaySnoc(concepts: map<nat, Concept>, batch: seq<Concept>, c: Concept)
    ensures Overlay(concepts, batch + [c]) == Overlay(concepts, batch)[c.id := c]
    decreases batch
  {
    if batch != [] {
      assert (batch + [c])[1..] == batch[1..] + [c];
      OverlaySnoc(concepts[batch[0].id := batch[0]], batch[1..], c);
    } else {
      assert batch + [c] == [c];
    }
  }

  lemma {:induction false} OverlayElsewhere(concepts: map<nat, Concept>, batch: seq<Concept>, id: nat)
    requires forall i :: 0 <= i < |batch| ==> batch[i].id != id
    ensures id in Overlay(concepts, batch) <==> id in concepts
    ensures id in concepts ==> Overlay(concepts, batch)[id] == concepts[id]
    decreases batch
  {
    if batch != [] { OverlayElsewhere(concepts[batch[0].id := batch[0]], batch[1..], id); }
  }

  /** A concept of the overlay is the base's or one of the batch. */
  lemma {:induction false} OverlaySource(concepts: map<nat, Concept>, batch: seq<Concept>, id: nat)
    requires id in Overlay(concepts, batch)
    ensures (id in concepts && Overlay(concepts, batch)[id] == concepts[id]) ||
            (exists i :: 0 <= i < |batch| && batch[i].id == id && Overlay(concepts, batch)[id] == batch[i])
    decreases batch
  {
    if batch != [] {
      var next := concepts[batch[0].id := batch[0]];
      OverlaySource(next, batch[1..], id);
      if !(id in next && Overlay(next, batch[1..])[id] == next[id]) {
        var i :| 0 <= i < |batch[1..]| && batch[1..][i].id == id && Overlay(next, batch[1..])[id] == batch[1..][i];
        assert batch[i + 1] == batch[1..][i];
      }
    }
  }

  /** What an upsert stages for a concept already there: the properties it does
      not name and the description it leaves empty are kept when merging. */
  function Refreshed(opts: Options, prev: Concept, c: Concept): Concept {
    if !opts.mergeProperties then c else
    c.(properties := prev.properties + c.properties,
       description := if c.description == "" then prev.description else c.description)
  }

  /** What a record makes of a concept already there: its own type and name;
      when merging, its properties over those of the concept and its description
      unless that is empty; otherwise properties and description of its own. */
  predicate MergedWith(merging: bool, prev: Concept, c: Concept, after: Concept) {
    && after.ctype == c.ctype && after.name == c.name
    && if merging then
         && (forall k :: k in c.properties ==> k in after.properties && after.properties[k] == c.properties[k])
         && (forall k :: k in prev.properties && k !in c.properties ==> k in after.properties && after.properties[k] == prev.properties[k])
         && (forall k :: k in after.properties ==> k in c.properties || k in prev.properties)
         && after.description == if c.description == "" then prev.description else c.description
       else after.properties == c.properties && after.description == c.description
  }

  /** What taking a record does to the concepts: one of them changes, the one
      found by an upsert being merged with. */
  predicate TakenAs(opts: Options, before: map<nat, Concept>, after: map<nat, Concept>, c: Concept, id: nat) {
    && (c.id != 0 ==> id == c.id) && id in after && after == before[id := after[id]]
    && after[id].id == id && after[id].ctype == c.ctype && after[id].name == c.name
    && if c.id == 0 && id in before then opts.upsert && MergedWith(opts.mergeProperties, before[id], c, after[id])
       else after[id].description == c.description && after[id].properties == c.properties
  }

  lemma RefreshedMeans(opts: Options, prev: Concept, c: Concept, after: Concept)
    ensures MergedWith(opts.mergeProperties, prev, c, after) <==> after == Refreshed(opts, prev, c).(id := after.id)
  {
    if MergedWith(opts.mergeProperties, prev, c, after) && opts.mergeProperties {
      assert after.properties == prev.properties + c.properties;
    }
  }

  lemma UpsertMeans(opts: Options, before: map<nat, Concept>, after: map<nat, Concept>, c: Concept, id: nat)
    requires UpsertedInto(opts, before, after, c, id) || Overwrote(opts, before, after, c, id)
    ensures TakenAs(opts, before, after, c, id)
  {
    if id in before { RefreshedMeans(opts, before[id], c, after[id]); }
  }

  /** One concept record applied on arrival. */
  ghost predicate UpsertedInto(opts: Options, before: map<nat, Concept>, after: map<nat, Concept>, c: Concept, id: nat) {
    && (c.id != 0 ==> id == c.id && after == before[id := c])
    && (c.id == 0 && id in before ==>
          opts.upsert && KeyOf(before[id]) == KeyOf(c) && after == before[id := Refreshed(opts, before[id], c).(id := id)])
    && (c.id == 0 && id !in before ==> after == before[id := c.(id := id)])
  }

  /** A concept record that landed on a concept of another name. */
  ghost predicate Overwrote(opts: Options, before: map<nat, Concept>, after: map<nat, Concept>, c: Concept, id: nat) {
    && opts.upsert && c.id == 0 && id in before && before[id].ctype == c.ctype && KeyOf(before[id]) != KeyOf(c)
    && after == before[id := Refreshed(opts, before[id], c).(id := id)]
  }

  // ---------- the journal replayed ----------

  /** The concepts that replaying the journal leaves. */
  function Journaled(log: seq<LogRecord>): map<nat, Concept> {
    if log == [] then map[] else
    var before := Journaled(log[..|log| - 1]);
    match log[|log| - 1]
    case ConceptLog(c) => before[c.id := c]
    case DeleteConceptLog(id, _) => before - {id}
    case _ => before
  }

  function ConceptRecords(batch: seq<Concept>): seq<LogRecord> {
    seq(|batch|, i requires 0 <= i < |batch| => ConceptLog(batch[i]))
  }

  lemma {:induction false} JournaledConcepts(log: seq<LogRecord>, batch: seq<Concept>)
    ensures Journaled(log + ConceptRecords(batch)) == Overlay(Journaled(log), batch)
  {
    if batch == [] {
      assert log + ConceptRecords(batch) == log;
    } else {
      var l := |batch| - 1;
      var all := log + ConceptRecords(batch);
      assert all[..|all| - 1] == log + ConceptRecords(batch[..l]);
      assert all[|all| - 1] == ConceptLog(batch[l]);
      JournaledConcepts(log, batch[..l]);
      OverlaySnoc(Journaled(log), batch[..l], batch[l]);
      assert batch[..l] + [batch[l]] == batch;
    }
  }

  predicate IsConceptRecord(r: LogRecord) { r.ConceptLog? || r.DeleteConceptLog? }

  lemma {:induction false} JournaledOthers(log: seq<LogRecord>, more: seq<LogRecord>)
    requires forall i :: 0 <= i < |more| ==> !IsConceptRecord(more[i])
    ensures Journaled(log + more) == Journaled(log)
  {
    if more == [] {
      assert log + more == log;
    } else {
      assert (log + more)[..|log + more| - 1] == log + more[..|more| - 1];
      assert (log + more)[|log + more| - 1] == more[|more| - 1];
      JournaledOthers(log, more[..|more| - 1]);
    }
  }

  /** Memory and disk hold the same concepts. */
  predicate Durable(st: State, log: seq<LogRecord>) { st.concepts == Journaled(log) }
}
