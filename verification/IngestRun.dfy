/** Whole ingests: the record dispatcher, the run with its retry pass, and the
    rollback of the schema when it fails (crates/io/src/ingest.rs). */
module IngestRun {
  import opened Collections
  import opened Text
  import opened OntologySchema
  import opened GraphState
  import opened BatchLaws
  import opened IngestState
  import opened SessionLaws
  import opened UpsertLaws
  import opened AbsorbLaws
  import opened Arrival
  import opened Consistency
  import opened Engine
  import opened Pruning
  import opened Recovery
  import opened Ingest
  import opened Idempotence
  import opened RunLedger
  import opened SilentRun

  /** A schema on the wire registers every type under its own name. */
  ghost predicate Readable(rec: Record) { rec.OntologyRecord? ==> WellKeyed(rec.schema) }

  /** The types a source declares and does not ask to keep. */
  function DeclaredBy(opts: Options, records: seq<Record>): set<string> {
    if !opts.prune then {} else
    set i | 0 <= i < |records| && records[i].ConceptTypeDecl? && records[i].decl.name !in opts.pruneKeep :: records[i].decl.name
  }

  function RelationTypesDeclaredBy(opts: Options, records: seq<Record>): set<string> {
    if !opts.prune then {} else
    set i | 0 <= i < |records| && records[i].RelationTypeDecl? && records[i].relationType.name !in opts.pruneKeep
      :: records[i].relationType.name
  }

  /** The source declares no relation type. */
  predicate NoRelationTypes(records: seq<Record>) {
    forall i :: 0 <= i < |records| ==> !records[i].RelationTypeDecl?
  }

  // ---------- one record ----------

  /** Why a record is put off. */
  ghost predicate Unresolved(st: State, s: Session, rec: Record) {
    && (rec.NamedRelation? ==> s.pending == [] && EndsFound(st, SourceKey(rec), TargetKey(rec)).None?)
    && (rec.RelationTypeDecl? ==> !EndsKnown(st.schema, rec.relationType))
  }

  /** A record that the settled graph has no reason to refuse. */
  ghost predicate Acceptable(st: State, rec: Record) {
    || (rec.NamedRelation? && NamedAddable(st, rec))
    || (rec.RelationTypeDecl? && Registrable(st, rec.relationType))
  }

  lemma DeclaredOne(opts: Options, rec: Record)
    ensures DeclaredBy(opts, [rec]) == if opts.prune && rec.ConceptTypeDecl? && rec.decl.name !in opts.pruneKeep then {rec.decl.name} else {}
    ensures RelationTypesDeclaredBy(opts, [rec]) ==
      if opts.prune && rec.RelationTypeDecl? && rec.relationType.name !in opts.pruneKeep then {rec.relationType.name} else {}
  {
    var one := [rec];
    if rec.ConceptTypeDecl? { assert one[0].decl.name == rec.decl.name; }
    if rec.RelationTypeDecl? { assert one[0].relationType.name == rec.relationType.name; }
  }

  method TakeSchema(ing: Ingester, rec: Record) returns (r: Ingested<bool>)
    requires ing.Valid() && rec.OntologyRecord? && Readable(rec)
    modifies ing, ing.store, ing.graph`st, ing.graph`ix
    ensures ing.Valid() && (old(ing.InStep()) ==> ing.InStep())
    ensures r.Done? ==> Applied(ing.opts, old(ing.graph.st), old(ing.s), ing.graph.st, ing.s, rec, r.value, 0, ("", 0, 0))
    ensures ing.s.declaredTypes == old(ing.s.declaredTypes) + DeclaredBy(ing.opts, [rec])
    ensures ing.s.declaredRelationTypes == old(ing.s.declaredRelationTypes) + RelationTypesDeclaredBy(ing.opts, [rec])
    ensures r.Done? ==> r.value
    ensures r.Failed? ==> !r.error.PruneRefused?
    ensures r.Done? ==> ing.Ahead()
    ensures ing.Steady(!NotLost(r))
    ensures ing.Calm()
  {
    hide Consistent, SessionOk, HasEdge, EdgesKept, WellFormed, AspectKept, HasEither, LinkSays, Fresh, Absent, LinkApplied, UpsertedInto, ConceptAbsorbed, NamesKept, StagedInto, Staging, Arrive, BatchKept, Backed, SameTypes;
    DeclaredOne(ing.opts, rec);
    ghost var a, s := ing.graph.st, ing.s;
    r := ing.ReplaceOntology(rec.schema);
    if r.Done? { NamesByBatch(a, s, ing.graph.st, ing.s); }
  }

  method TakeConcept(ing: Ingester, rec: Record) returns (r: Ingested<bool>, ghost id: nat)
    requires ing.Valid() && rec.ConceptRecord? && Readable(rec)
    modifies ing, ing.store, ing.graph`st, ing.graph`ix
    ensures ing.Valid() && (old(ing.InStep()) ==> ing.InStep())
    ensures r.Done? ==> Applied(ing.opts, old(ing.graph.st), old(ing.s), ing.graph.st, ing.s, rec, r.value, id, ("", 0, 0))
    ensures ing.s.declaredTypes == old(ing.s.declaredTypes) + DeclaredBy(ing.opts, [rec])
    ensures ing.s.declaredRelationTypes == old(ing.s.declaredRelationTypes) + RelationTypesDeclaredBy(ing.opts, [rec])
    ensures ing.opts.upsert && !ing.opts.prune && old(Idle(ing.s) && Absorbed(ing.opts, ing.graph.st, rec)) ==>
      r.Done? && r.value && ing.Untouched()
    ensures r.Done? ==> r.value
    ensures r.Failed? ==> !r.error.PruneRefused?
    ensures r.Done? ==> ing.Ahead()
    ensures ing.Steady(!NotLost(r))
    ensures ing.Calm()
  {
    hide Consistent, SessionOk, HasEdge, EdgesKept, WellFormed, AspectKept, HasEither, LinkSays, Fresh, Absent, LinkApplied, UpsertedInto, ConceptAbsorbed, NamesKept, StagedInto, Staging, Arrive, BatchKept, Backed, SameTypes;
    DeclaredOne(ing.opts, rec);
    ghost var a, s := ing.graph.st, ing.s;
    var staged;
    staged, id := ing.StageConcept(rec.concept);
    if staged.Failed? { return Failed(staged.error), id; }
    if rec.concept.id == 0 && NamesSettled(a, s) { TakenInto(ing.opts, a, old(ing.store.log), s, ing.graph.st, ing.s, rec.concept, id); }
    return Done(true), id;
  }

  lemma TakenInto(opts: Options, a: State, log: seq<LogRecord>, s: Session, b: State, t: Session, c: Concept, id: nat)
    requires SessionOk(a, log, s) && NamesSettled(a, s) && StagedInto(opts, a, s, ConceptView(b, t), c, id)
    ensures TookConcept(opts, a, s, b, t, c, id)
  {
    hide Redirected, UpsertedInto;
    SettledNotRedirected(opts, a, s, c);
  }

  lemma SettledBatch(a: State, s: Session, s1: Session, b: State, t: Session)
    requires ConceptView(a, s1) == ConceptView(a, s) && t.pending == [] && b.concepts == ConceptView(a, s1)
    ensures BatchKept(a, s, b, t)
  {
  }

  method TakeRelation(ing: Ingester, rec: Record) returns (r: Ingested<bool>, ghost link: EdgeEnds)
    requires ing.Valid() && rec.RelationRecord? && Readable(rec)
    modifies ing, ing.store, ing.graph`st, ing.graph`ix
    ensures ing.Valid() && (old(ing.InStep()) ==> ing.InStep())
    ensures r.Done? ==> Applied(ing.opts, old(ing.graph.st), old(ing.s), ing.graph.st, ing.s, rec, r.value, 0, link)
    ensures ing.s.declaredTypes == old(ing.s.declaredTypes) + DeclaredBy(ing.opts, [rec])
    ensures ing.s.declaredRelationTypes == old(ing.s.declaredRelationTypes) + RelationTypesDeclaredBy(ing.opts, [rec])
    ensures r.Done? ==> r.value
    ensures r.Failed? ==> !r.error.PruneRefused?
    ensures r.Done? ==> ing.Ahead()
    ensures ing.Steady(!NotLost(r))
    ensures ing.Calm()
  {
    hide Consistent, SessionOk, HasEdge, EdgesKept, WellFormed, AspectKept, HasEither, LinkSays, Fresh, Absent, LinkApplied, UpsertedInto, ConceptAbsorbed, NamesKept, StagedInto, Staging, Arrive, BatchKept, Backed, SameTypes;
    DeclaredOne(ing.opts, rec);
    link := EndsOf(rec.relation);
    ghost var a, s := ing.graph.st, ing.s;
    ing.NoteEdge(rec.relation.source, rec.relation.target, rec.relation.rtype);
    ghost var s1 := ing.s;
    EdgesSame(a, s, a, s1);
    var added := ing.AddRelation(rec.relation);
    if added.Failed? { return Failed(added.error), link; }
    assert BatchKept(a, s, ing.graph.st, ing.s) by { SettledBatch(a, s, s1, ing.graph.st, ing.s); }
    NamesByBatch(a, s, ing.graph.st, ing.s);
    EdgesOnward(a, s, a, s1, ing.graph.st, ing.s);
    EdgeIsEither(LinksOf(ing.graph.st, ing.s), link);
    return Done(true), link;
  }

  method TakeNamed(ing: Ingester, rec: Record) returns (r: Ingested<bool>, ghost link: EdgeEnds)
    requires ing.Valid() && rec.NamedRelation? && Readable(rec)
    modifies ing, ing.store, ing.graph`st, ing.graph`ix
    ensures ing.Valid() && (old(ing.InStep()) ==> ing.InStep())
    ensures r.Done? ==> Applied(ing.opts, old(ing.graph.st), old(ing.s), ing.graph.st, ing.s, rec, r.value, 0, link)
    ensures ing.s.declaredTypes == old(ing.s.declaredTypes) + DeclaredBy(ing.opts, [rec])
    ensures ing.s.declaredRelationTypes == old(ing.s.declaredRelationTypes) + RelationTypesDeclaredBy(ing.opts, [rec])
    ensures ing.opts.upsert && !ing.opts.prune && old(Idle(ing.s) && Absorbed(ing.opts, ing.graph.st, rec)) ==>
      r.Done? && r.value && ing.Untouched()
    ensures r.Done? && !r.value ==> Unresolved(ing.graph.st, ing.s, rec)
    ensures r.Failed? ==> !r.error.PruneRefused?
    ensures r.Done? ==> ing.Ahead()
    ensures ing.Steady(!NotLost(r))
    ensures NotLost(r) && old(Idle(ing.s) && Acceptable(ing.graph.st, rec)) ==> r.Done? && (r.value || rec.RelationTypeDecl?)
    ensures ing.Calm()
  {
    hide Consistent, SessionOk, HasEdge, EdgesKept, WellFormed, AspectKept, HasEither, LinkSays, Fresh, Absent, LinkApplied, UpsertedInto, ConceptAbsorbed, NamesKept, StagedInto, Staging, Arrive, BatchKept, Backed, SameTypes;
    DeclaredOne(ing.opts, rec);
    ghost var a, s := ing.graph.st, ing.s;
    r, link := ing.PutNamed(rec);
    if r.Done? && r.value && ing.opts.upsert { assert TookNamed(a, s, ing.graph.st, ing.s, rec, link); }
  }

  method TakeType(ing: Ingester, rec: Record) returns (r: Ingested<bool>)
    requires ing.Valid() && rec.ConceptTypeDecl? && Readable(rec)
    modifies ing, ing.store, ing.graph`st, ing.graph`ix
    ensures ing.Valid() && (old(ing.InStep()) ==> ing.InStep())
    ensures r.Done? ==> Applied(ing.opts, old(ing.graph.st), old(ing.s), ing.graph.st, ing.s, rec, r.value, 0, ("", 0, 0))
    ensures ing.s.declaredTypes == old(ing.s.declaredTypes) + DeclaredBy(ing.opts, [rec])
    ensures ing.s.declaredRelationTypes == old(ing.s.declaredRelationTypes) + RelationTypesDeclaredBy(ing.opts, [rec])
    ensures ing.opts.upsert && !ing.opts.prune && old(Idle(ing.s) && Absorbed(ing.opts, ing.graph.st, rec)) ==>
      r.Done? && r.value && ing.Untouched()
    ensures r.Done? ==> r.value
    ensures r.Failed? ==> !r.error.PruneRefused?
    ensures r.Done? ==> ing.Ahead()
    ensures ing.Steady(!NotLost(r))
    ensures ing.Calm()
  {
    hide Consistent, SessionOk, HasEdge, EdgesKept, WellFormed, AspectKept, HasEither, LinkSays, Fresh, Absent, LinkApplied, UpsertedInto, ConceptAbsorbed, NamesKept, StagedInto, Staging, Arrive, BatchKept, Backed, SameTypes;
    DeclaredOne(ing.opts, rec);
    ghost var a, s := ing.graph.st, ing.s;
    r := ing.DeclareConceptType(rec.decl);
    if r.Done? {
      EdgesByKeeps(a, s, ing.graph.st, ing.s);
      NamesByKeeps(a, s, ing.graph.st, ing.s, 0);
    }
  }

  method TakeRelationType(ing: Ingester, rec: Record) returns (r: Ingested<bool>)
    requires ing.Valid() && rec.RelationTypeDecl? && Readable(rec)
    modifies ing, ing.store, ing.graph`st, ing.graph`ix
    ensures ing.Valid() && (old(ing.InStep()) ==> ing.InStep())
    ensures r.Done? ==> Applied(ing.opts, old(ing.graph.st), old(ing.s), ing.graph.st, ing.s, rec, r.value, 0, ("", 0, 0))
    ensures ing.s.declaredTypes == old(ing.s.declaredTypes) + DeclaredBy(ing.opts, [rec])
    ensures ing.s.declaredRelationTypes == old(ing.s.declaredRelationTypes) + RelationTypesDeclaredBy(ing.opts, [rec])
    ensures ing.opts.upsert && !ing.opts.prune && old(Idle(ing.s) && Absorbed(ing.opts, ing.graph.st, rec)) ==>
      r.Done? && (r.value || rec.RelationTypeDecl?) && ing.Untouched()
    ensures r.Done? && !r.value ==> Unresolved(ing.graph.st, ing.s, rec)
    ensures r.Failed? ==> !r.error.PruneRefused?
    ensures r.Done? ==> ing.Ahead()
    ensures ing.Steady(!NotLost(r))
    ensures NotLost(r) && old(Idle(ing.s) && Acceptable(ing.graph.st, rec)) ==> r.Done? && (r.value || rec.RelationTypeDecl?)
    ensures !ing.opts.prune && rec.RelationTypeDecl? && old(NothingPending(ing.s)) ==> NothingPending(ing.s) && ing.graph.st == old(ing.graph.st).(schema := ing.graph.st.schema)
    ensures !ing.opts.prune && rec.RelationTypeDecl? && old(TypeAbsorbed(ing.graph.st.schema, rec.relationType)) ==> r.Done? && ing.Untouched()
  {
    hide Consistent, SessionOk, HasEdge, EdgesKept, WellFormed, AspectKept, HasEither, LinkSays, Fresh, Absent, LinkApplied, UpsertedInto, ConceptAbsorbed, NamesKept, StagedInto, Staging, Arrive, BatchKept, Backed, SameTypes;
    DeclaredOne(ing.opts, rec);
    ghost var a, s := ing.graph.st, ing.s;
    r := ing.DeclareRelationType(rec.relationType);
    if r.Done? {
      EdgesByKeeps(a, s, ing.graph.st, ing.s);
      NamesByKeeps(a, s, ing.graph.st, ing.s, 0);
    }
  }

  /** What the answer to a record depends on. */
  ghost predicate AnsweredAs(a: State, s: Session, b: State, t: Session, rec: Record, absorbed: bool, r: Ingested<bool>) {
    && (Idle(s) && (absorbed || Acceptable(a, rec)) ==> r.Done? && (r.value || rec.RelationTypeDecl?))
    && (Idle(s) && absorbed ==> b == a && t == s)
    && (rec.RelationTypeDecl? && NothingPending(s) ==> NothingPending(t) && b == a.(schema := b.schema))
    && (rec.RelationTypeDecl? && TypeAbsorbed(a.schema, rec.relationType) ==> r.Done? && b == a && t == s)
    && (r.Done? && !r.value ==> Unresolved(b, t, rec))
  }

  /** One record; `false` when it must be retried later. `id` and `link` are what
      it was staged or put under. */
  method Apply(ing: Ingester, rec: Record) returns (r: Ingested<bool>, ghost id: nat, ghost link: EdgeEnds)
    requires ing.Valid() && Readable(rec)
    modifies ing, ing.store, ing.graph`st, ing.graph`ix
    ensures ing.Valid() && (old(ing.InStep()) ==> ing.InStep())
    ensures r.Done? ==> Applied(ing.opts, old(ing.graph.st), old(ing.s), ing.graph.st, ing.s, rec, r.value, id, link)
    ensures ing.s.declaredTypes == old(ing.s.declaredTypes) + DeclaredBy(ing.opts, [rec])
    ensures ing.s.declaredRelationTypes == old(ing.s.declaredRelationTypes) + RelationTypesDeclaredBy(ing.opts, [rec])
    ensures ing.opts.upsert && !ing.opts.prune && old(Idle(ing.s) && Absorbed(ing.opts, ing.graph.st, rec)) ==>
      r.Done? && (r.value || rec.RelationTypeDecl?) && ing.Untouched()
    ensures r.Done? && !r.value ==> Unresolved(ing.graph.st, ing.s, rec)
    ensures r.Failed? ==> !r.error.PruneRefused?
    ensures r.Done? ==> ing.Ahead()
    ensures ing.Steady(!NotLost(r))
    ensures NotLost(r) && ing.opts.upsert && !ing.opts.prune ==>
      AnsweredAs(old(ing.graph.st), old(ing.s), ing.graph.st, ing.s, rec, old(Absorbed(ing.opts, ing.graph.st, rec)), r)
    ensures !rec.RelationTypeDecl? ==> ing.Calm()
  {
    hide Consistent, SessionOk, WellFormed, Applied, Unresolved, ConceptAbsorbed, RelationAbsorbed, TypeAbsorbed, Backed, SameTypes;
    id, link := 0, ("", 0, 0);
    match rec {
      case OntologyRecord(_) =>
        r := TakeSchema(ing, rec);
      case ConceptRecord(_) =>
        r, id := TakeConcept(ing, rec);
      case RelationRecord(_) =>
        r, link := TakeRelation(ing, rec);
      case NamedRelation(_, _, _, _, _, _, _) =>
        r, link := TakeNamed(ing, rec);
      case ConceptTypeDecl(_) =>
        r := TakeType(ing, rec);
      case RelationTypeDecl(_) =>
        r := TakeRelationType(ing, rec);
    }
  }

  // ---------- the first pass ----------

  /** Deferred records by index. */
  predicate Queued(records: seq<Record>, deferred: seq<Record>, waiting: seq<nat>, l: Ledger, i: nat) {
    && |waiting| == |deferred| && i <= |records| && NoDup(waiting)
    && forall d :: 0 <= d < |waiting| ==> Waits(records, deferred, waiting, l, i, d)
  }

  predicate Waits(records: seq<Record>, deferred: seq<Record>, waiting: seq<nat>, l: Ledger, i: nat, d: nat)
    requires |waiting| == |deferred| && i <= |records| && d < |waiting|
  {
    && waiting[d] < i && waiting[d] !in l.taken && deferred[d] == records[waiting[d]]
    && (deferred[d].NamedRelation? || deferred[d].RelationTypeDecl?)
  }

  predicate Covered(waiting: seq<nat>, taken: set<nat>, i: nat) { forall k :: 0 <= k < i ==> k in taken || k in waiting }

  predicate Repeats(opts: Options, symmetric: map<string, bool>, records: seq<Record>) {
    opts.upsert && !opts.prune && Repeatable(symmetric, records)
  }

  /** `i` records were seen; `again` asks for what a second run needs. */
  ghost predicate Passing(opts: Options, symmetric: map<string, bool>, again: bool, st: State, s: Session, records: seq<Record>, i: nat,
                          deferred: seq<Record>, waiting: seq<nat>, l: Ledger) {
    && Logged(opts, st, s, records, l) && (forall k :: k in l.taken ==> k < i)
    && (again ==> Repeats(opts, symmetric, records) && Going(opts, symmetric, st, s, records, l.taken))
    && Queued(records, deferred, waiting, l, i) && Covered(waiting, l.taken, i)
  }

  lemma QueuedOn(records: seq<Record>, deferred: seq<Record>, waiting: seq<nat>, l: Ledger, i: nat, applied: bool, id: nat, link: EdgeEnds)
    requires Queued(records, deferred, waiting, l, i) && Covered(waiting, l.taken, i) && i < |records| && Fits(records, l)
    requires forall k :: k in l.taken ==> k < i
    requires !applied ==> records[i].NamedRelation? || records[i].RelationTypeDecl?
    ensures var m := After(l, i, applied, id, link);
      var more, later := (if applied then deferred else deferred + [records[i]]), (if applied then waiting else waiting + [i]);
      Queued(records, more, later, m, i + 1) && Covered(later, m.taken, i + 1)
  {
    var m := After(l, i, applied, id, link);
    var more, later := (if applied then deferred else deferred + [records[i]]), (if applied then waiting else waiting + [i]);
    var n := i + 1;
    forall d | 0 <= d < |later| ensures Waits(records, more, later, m, n, d) {
      if d < |waiting| { assert Waits(records, deferred, waiting, l, i, d); }
    }
    forall c, d | 0 <= c < d < |later| ensures later[c] != later[d] {
      assert Waits(records, deferred, waiting, l, i, c);
    }
    forall k | 0 <= k < i + 1 ensures k in m.taken || k in later { if k < i && k in waiting { assert waiting <= later; } }
  }

  lemma PassingOn(opts: Options, symmetric: map<string, bool>, again: bool, a: State, s: Session, b: State, t: Session, log: seq<LogRecord>,
                  records: seq<Record>, i: nat, deferred: seq<Record>, waiting: seq<nat>, l: Ledger, applied: bool, id: nat, link: EdgeEnds)
    requires Passing(opts, symmetric, again, a, s, records, i, deferred, waiting, l) && i < |records| && SessionOk(b, log, t)
    requires Applied(opts, a, s, b, t, records[i], applied, id, link)
    ensures Fits(records, l)
    ensures Passing(opts, symmetric, again, b, t, records, i + 1, if applied then deferred else deferred + [records[i]],
                    if applied then waiting else waiting + [i], After(l, i, applied, id, link))
  {
    hide SessionOk, Going, Took, UpsertedInto, EdgesKept, HasEither, Queued, Covered, Apart;
    QueuedOn(records, deferred, waiting, l, i, applied, id, link);
    LoggedOn(opts, a, s, b, t, records, l, i, applied, id, link);
    if again {
      assert Plain(records[i]);
      GoingOn(opts, symmetric, a, s, b, t, log, records, l.taken, i, applied);
    }
  }

  lemma DeclaredMore(opts: Options, records: seq<Record>, i: nat)
    requires i < |records|
    ensures DeclaredBy(opts, records[..i + 1]) == DeclaredBy(opts, records[..i]) + DeclaredBy(opts, [records[i]])
    ensures RelationTypesDeclaredBy(opts, records[..i + 1]) ==
            RelationTypesDeclaredBy(opts, records[..i]) + RelationTypesDeclaredBy(opts, [records[i]])
  {
    DeclaredOne(opts, records[i]);
    var a, b := records[..i], records[..i + 1];
    forall k | 0 <= k < i ensures a[k] == b[k] { }
    assert b[i] == records[i];
  }

  /** Everything the records say is already there. */
  ghost predicate AllAbsorbed(opts: Options, st: State, records: seq<Record>) {
    opts.upsert && !opts.prune && forall i :: 0 <= i < |records| ==> Absorbed(opts, st, records[i])
  }

  /** The graph has all that the records say, but for record `n`, which it has
      no reason to refuse; after it come only types that it has as well. */
  ghost predicate NewAt(opts: Options, st: State, records: seq<Record>, n: nat) {
    && opts.upsert && !opts.prune && n < |records| && Acceptable(st, records[n])
    && (forall i :: 0 <= i < n ==> Absorbed(opts, st, records[i]))
    && (forall i :: n < i < |records| ==> records[i].RelationTypeDecl? && TypeAbsorbed(st.schema, records[i].relationType))
    && (records[n].RelationTypeDecl? ==> n == |records| - 1)
    && (forall i :: 0 <= i < |records| && records[i].RelationTypeDecl? ==> EndsKnown(st.schema, records[i].relationType))
  }

  /** One record is new; `declared` asks that it be a type. */
  ghost predicate OneNew(opts: Options, st: State, records: seq<Record>, declared: bool) {
    exists n: nat :: NewAt(opts, st, records, n) && (declared ==> records[n].RelationTypeDecl?)
  }

  /** The type that the source ends with is registered. */
  function LastDeclared(st: State, records: seq<Record>): State {
    if records == [] || !records[|records| - 1].RelationTypeDecl? then st
    else st.(schema := Declared(st.schema, records[|records| - 1].relationType))
  }

  /** `i` records were seen; no relation was added before record `n`. */
  ghost predicate Underway(start: State, records: seq<Record>, n: nat, i: nat, st: State, s: Session)
    requires n < |records|
  {
    && (i <= n ==> st == start && s == NEW_SESSION)
    && (i > n && records[n].NamedRelation? ==> st.schema == start.schema)
    && (i > n && records[n].RelationTypeDecl? ==> NothingPending(s) && st == LastDeclared(start, records))
  }

  /** The record that is new, a type if there is a choice. */
  lemma NewRecord(opts: Options, st: State, records: seq<Record>) returns (n: nat)
    ensures OneNew(opts, st, records, false) ==> NewAt(opts, st, records, n) && n < |records| && opts.upsert && !opts.prune
    ensures OneNew(opts, st, records, true) ==> OneNew(opts, st, records, false) && records[n].RelationTypeDecl?
  {
    hide Absorbed, Acceptable;
    n := 0;
    if OneNew(opts, st, records, true) {
      n :| NewAt(opts, st, records, n) && (true ==> records[n].RelationTypeDecl?);
    } else if OneNew(opts, st, records, false) {
      n :| NewAt(opts, st, records, n);
    }
  }

  lemma UnderwayOn(opts: Options, start: State, records: seq<Record>, n: nat, i: nat, a: State, s: Session, b: State, t: Session,
                   r: Ingested<bool>, id: nat, link: EdgeEnds)
    requires NewAt(opts, start, records, n) && Underway(start, records, n, i, a, s) && i < |records|
    requires AnsweredAs(a, s, b, t, records[i], Absorbed(opts, a, records[i]), r)
    requires r.Done? ==> Applied(opts, a, s, b, t, records[i], r.value, id, link)
    ensures r.Done? && r.value && Underway(start, records, n, i + 1, b, t)
  {
    hide Absorbed, EdgesKept, HasEither, StagedInto, NamesKept, Keeps, NamedAddable, Registrable, TookNamed;
  }

  /** The first pass: every record once; those that must wait are kept. */
  method FirstPass(ing: Ingester, records: seq<Record>, ghost symmetric: map<string, bool>, ghost again: bool)
    returns (r: Ingested<seq<Record>>, ghost waiting: seq<nat>, ghost l: Ledger)
    requires ing.Valid() && ing.s == NEW_SESSION && forall rec :: rec in records ==> Readable(rec)
    requires again ==> Repeats(ing.opts, symmetric, records) && SymmetryWithin(ing.graph.st.schema, symmetric)
    modifies ing, ing.store, ing.graph`st, ing.graph`ix
    ensures ing.Valid() && (old(ing.InStep()) ==> ing.InStep())
    ensures r.Failed? ==> !r.error.PruneRefused?
    ensures r.Done? ==> Passing(ing.opts, symmetric, again, ing.graph.st, ing.s, records, |records|, r.value, waiting, l)
    ensures r.Done? ==> forall rec :: rec in r.value ==> rec in records && (rec.NamedRelation? || rec.RelationTypeDecl?)
    ensures r.Done? ==> ing.s.declaredTypes == DeclaredBy(ing.opts, records)
    ensures r.Done? ==> ing.s.declaredRelationTypes == RelationTypesDeclaredBy(ing.opts, records)
    ensures old(AllAbsorbed(ing.opts, ing.graph.st, records)) ==>
      r.Done? && ing.Untouched() && forall rec :: rec in r.value ==> rec.RelationTypeDecl?
    ensures r.Done? && Plainly(ing.opts, records) ==>
      Silent(ing.opts, old(ing.graph.st), |old(ing.store.log)|, ing.graph.st, ing.s, |ing.store.log|, records, l.taken, [])
    ensures old(OneNew(ing.opts, ing.graph.st, records, false) && ing.store.outcomes == []) ==>
      r == Done([]) && ing.store.outcomes == []
    ensures old(OneNew(ing.opts, ing.graph.st, records, true) && ing.store.outcomes == []) ==>
      NothingPending(ing.s) && ing.graph.st == LastDeclared(old(ing.graph.st), records)
    ensures NoRelationTypes(records) ==> ing.Calm()
  {
    hide Consistent, SessionOk, WellFormed, Applied, Absorbed, Unresolved, Passing, Repeats, Silent, WrittenAhead, AnsweredAs, OneNew, NewAt, Backed, SameTypes;
    var deferred: seq<Record> := [];
    waiting, l := [], Blank(|records|);
    StartPassing(ing.opts, symmetric, again, ing.graph.st, records);
    ghost var alone := OneNew(ing.opts, ing.graph.st, records, false) && ing.store.outcomes == [];
    ghost var n := NewRecord(ing.opts, ing.graph.st, records);
    StartSilent(ing.opts, ing.graph.st, ing.s, |ing.store.log|, records);
    for i := 0 to |records|
      invariant ing.Valid() && (old(ing.InStep()) ==> ing.InStep())
      invariant NoRelationTypes(records) ==> ing.Calm()
      invariant Passing(ing.opts, symmetric, again, ing.graph.st, ing.s, records, i, deferred, waiting, l)
      invariant ing.s.declaredTypes == DeclaredBy(ing.opts, records[..i])
      invariant ing.s.declaredRelationTypes == RelationTypesDeclaredBy(ing.opts, records[..i])
      invariant old(AllAbsorbed(ing.opts, ing.graph.st, records)) ==> ing.Untouched() && forall rec :: rec in deferred ==> rec.RelationTypeDecl?
      invariant Plainly(ing.opts, records) ==>
        Silent(ing.opts, old(ing.graph.st), |old(ing.store.log)|, ing.graph.st, ing.s, |ing.store.log|, records, l.taken, [])
      invariant alone ==> deferred == [] && ing.store.outcomes == [] && n < |records| && Underway(old(ing.graph.st), records, n, i, ing.graph.st, ing.s)
    {
      DeclaredMore(ing.opts, records, i);
      assert records[i] in records;
      ghost var a, s, k := ing.graph.st, ing.s, |ing.store.log|;
      var applied;
      ghost var id, link;
      applied, id, link := Apply(ing, records[i]);
      if alone { UnderwayOn(ing.opts, old(ing.graph.st), records, n, i, a, s, ing.graph.st, ing.s, applied, id, link); }
      if applied.Failed? { return Failed(applied.error), waiting, l; }
      PassingOn(ing.opts, symmetric, again, a, s, ing.graph.st, ing.s, ing.store.log, records, i, deferred, waiting, l, applied.value, id, link);
      if Plainly(ing.opts, records) {
        SilentNext(ing.opts, old(ing.graph.st), |old(ing.store.log)|, a, s, k, ing.graph.st, ing.s, ing.store.log, records, l, [], i,
                   applied.value, false, id, link);
      }
      if !applied.value {
        deferred := deferred + [records[i]];
        waiting := waiting + [i];
      }
      l := After(l, i, applied.value, id, link);
    }
    assert records[..|records|] == records;
    DeferredKinds(ing.opts, symmetric, again, ing.graph.st, ing.s, records, deferred, waiting, l);
    return Done(deferred), waiting, l;
  }

  lemma DeferredKinds(opts: Options, symmetric: map<string, bool>, again: bool, st: State, s: Session, records: seq<Record>,
                      deferred: seq<Record>, waiting: seq<nat>, l: Ledger)
    requires Passing(opts, symmetric, again, st, s, records, |records|, deferred, waiting, l)
    ensures forall rec :: rec in deferred ==> rec in records && (rec.NamedRelation? || rec.RelationTypeDecl?)
  {
    hide Logged, Going, Repeats;
    forall rec | rec in deferred ensures rec in records && (rec.NamedRelation? || rec.RelationTypeDecl?) {
      var d :| 0 <= d < |deferred| && deferred[d] == rec;
      assert Waits(records, deferred, waiting, l, |records|, d);
    }
  }

  lemma StartSilent(opts: Options, st: State, s: Session, n: nat, records: seq<Record>)
    ensures Silent(opts, st, n, st, s, n, records, Blank(|records|).taken, [])
  {
  }

  lemma SilentNext(opts: Options, start: State, n: nat, a: State, s: Session, k: nat, b: State, t: Session, log: seq<LogRecord>,
                   records: seq<Record>, l: Ledger, retried: seq<nat>, i: nat, applied: bool, dropped: bool, id: nat, link: EdgeEnds)
    requires Plainly(opts, records) && Silent(opts, start, n, a, s, k, records, l.taken, retried)
    requires WrittenAhead(a, s, k, b, t, |log|) && SessionOk(b, log, t)
    requires Fits(records, l) && i < |records| && Applied(opts, a, s, b, t, records[i], applied, id, link)
    requires dropped ==> applied || (Unresolved(b, t, records[i]) && records[i].RelationTypeDecl?)
    ensures Silent(opts, start, n, b, t, |log|, records, After(l, i, applied, id, link).taken, if dropped then retried + [i] else retried)
  {
    hide Silent, WrittenAhead, SessionOk, Took, EdgesKept, HasEither, StagedInto, NamesKept;
    SilentOn(opts, start, n, a, s, k, b, t, |log|, log, records, l.taken, retried, i, applied, dropped);
  }

  lemma StartPassing(opts: Options, symmetric: map<string, bool>, again: bool, st: State, records: seq<Record>)
    requires again ==> Repeats(opts, symmetric, records) && SymmetryWithin(st.schema, symmetric)
    ensures Passing(opts, symmetric, again, st, NEW_SESSION, records, 0, [], [], Blank(|records|))
    ensures DeclaredBy(opts, records[..0]) == {} && RelationTypesDeclaredBy(opts, records[..0]) == {}
  {
    LoggedStarts(opts, st, records);
    if again { GoingStarts(opts, symmetric, st, records); }
  }

  // ---------- the retry pass ----------

  /** A relation type whose ends never came. */
  predicate Dropped(schema: Schema, again: bool, rec: Record) {
    rec.RelationTypeDecl? && (again ==> !EndsKnown(schema, rec.relationType))
  }

  predicate Accounted(schema: Schema, again: bool, records: seq<Record>, waiting: seq<nat>, d: nat, taken: set<nat>)
    requires d <= |waiting|
  {
    forall k :: 0 <= k < |records| ==> k in taken || k in waiting[d..] || Dropped(schema, again, records[k])
  }

  /** `d` of the deferred records were retried. */
  ghost predicate Retrying(opts: Options, symmetric: map<string, bool>, again: bool, st: State, s: Session, records: seq<Record>,
                           deferred: seq<Record>, waiting: seq<nat>, d: nat, l: Ledger) {
    && Logged(opts, st, s, records, l) && d <= |waiting| && NoDup(waiting) && |deferred| == |waiting|
    && (forall e :: 0 <= e < |waiting| ==> waiting[e] < |records| && deferred[e] == records[waiting[e]] && !records[waiting[e]].ConceptRecord?)
    && (forall e :: d <= e < |waiting| ==> waiting[e] !in l.taken)
    && (again ==> Repeats(opts, symmetric, records) && Going(opts, symmetric, st, s, records, l.taken))
    && Accounted(st.schema, again, records, waiting, d, l.taken)
  }

  lemma StartRetrying(opts: Options, symmetric: map<string, bool>, again: bool, st: State, s: Session, records: seq<Record>,
                      deferred: seq<Record>, waiting: seq<nat>, l: Ledger)
    requires Passing(opts, symmetric, again, st, s, records, |records|, deferred, waiting, l)
    ensures Retrying(opts, symmetric, again, st, s, records, deferred, waiting, 0, l)
  {
    hide Going, Logged, Repeats;
    assert waiting[0..] == waiting;
    forall e | 0 <= e < |waiting| ensures waiting[e] < |records| && deferred[e] == records[waiting[e]]
      && !records[waiting[e]].ConceptRecord? && waiting[e] !in l.taken
    {
      assert Waits(records, deferred, waiting, l, |records|, e);
    }
  }

  lemma DroppedStays(opts: Options, a: State, s: Session, b: State, t: Session, rec: Record, applied: bool, other: Record)
    requires Took(opts, a, s, b, t, rec, applied) && (rec.NamedRelation? || rec.RelationTypeDecl?) && Dropped(a.schema, true, other)
    ensures Dropped(b.schema, true, other)
  {
  }

  lemma AccountedOn(opts: Options, again: bool, a: State, s: Session, b: State, t: Session, records: seq<Record>, waiting: seq<nat>, d: nat,
                    taken: set<nat>, applied: bool)
    requires d < |waiting| && waiting[d] < |records| && Accounted(a.schema, again, records, waiting, d, taken)
    requires var rec := records[waiting[d]];
      && (rec.NamedRelation? || rec.RelationTypeDecl?) && (again ==> Took(opts, a, s, b, t, rec, applied))
      && (!applied ==> Dropped(b.schema, again, rec))
    ensures Accounted(b.schema, again, records, waiting, d + 1, if applied then taken + {waiting[d]} else taken)
  {
    hide Took, Dropped;
    assert waiting[d..] == [waiting[d]] + waiting[d + 1..];
    forall k | 0 <= k < |records| && Dropped(a.schema, again, records[k]) ensures Dropped(b.schema, again, records[k]) {
      StillDropped(opts, again, a, s, b, t, records[waiting[d]], applied, records[k]);
    }
  }

  lemma StillDropped(opts: Options, again: bool, a: State, s: Session, b: State, t: Session, rec: Record, applied: bool, other: Record)
    requires (rec.NamedRelation? || rec.RelationTypeDecl?) && (again ==> Took(opts, a, s, b, t, rec, applied))
    requires Dropped(a.schema, again, other)
    ensures Dropped(b.schema, again, other)
  {
    if again { DroppedStays(opts, a, s, b, t, rec, applied, other); }
  }

  lemma RetryingOn(opts: Options, symmetric: map<string, bool>, again: bool, a: State, s: Session, b: State, t: Session, log: seq<LogRecord>,
                   records: seq<Record>, deferred: seq<Record>, waiting: seq<nat>, d: nat, l: Ledger, applied: bool, id: nat, link: EdgeEnds)
    requires Retrying(opts, symmetric, again, a, s, records, deferred, waiting, d, l) && d < |waiting| && SessionOk(b, log, t)
    requires deferred[d].NamedRelation? || deferred[d].RelationTypeDecl?
    requires Applied(opts, a, s, b, t, deferred[d], applied, id, link) && (!applied ==> Dropped(b.schema, again, deferred[d]))
    ensures waiting[d] < |records| && Fits(records, l)
    ensures Retrying(opts, symmetric, again, b, t, records, deferred, waiting, d + 1, After(l, waiting[d], applied, id, link))
  {
    hide SessionOk, Going, Took, UpsertedInto, EdgesKept, HasEither, Accounted, Apart, Dropped;
    var i := waiting[d];
    LoggedOn(opts, a, s, b, t, records, l, i, applied, id, link);
    if again {
      assert Plain(records[i]);
      GoingOn(opts, symmetric, a, s, b, t, log, records, l.taken, i, applied);
    }
    AccountedOn(opts, again, a, s, b, t, records, waiting, d, l.taken, applied);
  }

  lemma NotedAlready(opts: Options, records: seq<Record>, rec: Record)
    requires rec in records
    ensures DeclaredBy(opts, [rec]) <= DeclaredBy(opts, records) && RelationTypesDeclaredBy(opts, [rec]) <= RelationTypesDeclaredBy(opts, records)
  {
    DeclaredOne(opts, rec);
  }

  /** The retry pass: a relation that still misses an end is an error, a type
      declaration whose ends never came is dropped. */
  method RetryPass(ing: Ingester, ghost records: seq<Record>, deferred: seq<Record>, ghost waiting: seq<nat>, ghost symmetric: map<string, bool>,
                   ghost again: bool, ghost before: Ledger, ghost start: State, ghost n: nat) returns (r: Ingested<()>, ghost l: Ledger)
    requires ing.Valid() && Retrying(ing.opts, symmetric, again, ing.graph.st, ing.s, records, deferred, waiting, 0, before)
    requires forall rec :: rec in deferred ==> rec in records && (rec.NamedRelation? || rec.RelationTypeDecl?)
    requires ing.s.declaredTypes == DeclaredBy(ing.opts, records)
    requires ing.s.declaredRelationTypes == RelationTypesDeclaredBy(ing.opts, records)
    requires Plainly(ing.opts, records) ==> Silent(ing.opts, start, n, ing.graph.st, ing.s, |ing.store.log|, records, before.taken, [])
    modifies ing, ing.store, ing.graph`st, ing.graph`ix
    ensures ing.Valid() && (old(ing.InStep()) ==> ing.InStep())
    ensures r.Failed? ==> !r.error.PruneRefused?
    ensures r.Done? ==> before.taken <= l.taken
    ensures r.Done? && Plainly(ing.opts, records) ==>
      Silent(ing.opts, start, n, ing.graph.st, ing.s, |ing.store.log|, records, l.taken, waiting[..|deferred|])
    ensures r.Done? ==> Retrying(ing.opts, symmetric, again, ing.graph.st, ing.s, records, deferred, waiting, |waiting|, l)
    ensures ing.s.declaredTypes == DeclaredBy(ing.opts, records)
    ensures ing.s.declaredRelationTypes == RelationTypesDeclaredBy(ing.opts, records)
    ensures old(Idle(ing.s) && AllAbsorbed(ing.opts, ing.graph.st, records)) && (forall rec :: rec in deferred ==> rec.RelationTypeDecl?) ==>
      r.Done? && ing.Untouched()
    ensures deferred == [] ==> r.Done? && ing.Untouched() && ing.store.outcomes == old(ing.store.outcomes)
    ensures NoRelationTypes(deferred) ==> ing.Calm()
  {
    hide Consistent, SessionOk, WellFormed, Applied, Absorbed, Repeats, Logged, Going, Accounted, NoDup, Silent, WrittenAhead, Backed, SameTypes;
    l := before;
    for d := 0 to |deferred|
      invariant ing.Valid() && (old(ing.InStep()) ==> ing.InStep())
      invariant NoRelationTypes(deferred) ==> ing.Calm()
      invariant Retrying(ing.opts, symmetric, again, ing.graph.st, ing.s, records, deferred, waiting, d, l) && before.taken <= l.taken
      invariant deferred == [] ==> ing.Untouched() && ing.store.outcomes == old(ing.store.outcomes)
      invariant Plainly(ing.opts, records) ==>
        Silent(ing.opts, start, n, ing.graph.st, ing.s, |ing.store.log|, records, l.taken, waiting[..d])
      invariant ing.s.declaredTypes == DeclaredBy(ing.opts, records)
      invariant ing.s.declaredRelationTypes == RelationTypesDeclaredBy(ing.opts, records)
      invariant old(Idle(ing.s) && AllAbsorbed(ing.opts, ing.graph.st, records)) && (forall rec :: rec in deferred ==> rec.RelationTypeDecl?) ==>
        ing.Untouched()
    {
      assert deferred[d] in deferred;
      NotedAlready(ing.opts, records, deferred[d]);
      ghost var a, s, k := ing.graph.st, ing.s, |ing.store.log|;
      var applied;
      ghost var id, link;
      applied, id, link := Apply(ing, deferred[d]);
      if applied.Failed? { return Failed(applied.error), l; }
      if !applied.value && deferred[d].NamedRelation? {
        var e := UnresolvedError(ing, deferred[d]);
        return Failed(e), l;
      }
      RetryingOn(ing.opts, symmetric, again, a, s, ing.graph.st, ing.s, ing.store.log, records, deferred, waiting, d, l, applied.value, id, link);
      if Plainly(ing.opts, records) {
        SilentNext(ing.opts, start, n, a, s, k, ing.graph.st, ing.s, ing.store.log, records, l, waiting[..d], waiting[d],
                   applied.value, true, id, link);
        assert waiting[..d + 1] == waiting[..d] + [waiting[d]];
      }
      l := After(l, waiting[d], applied.value, id, link);
    }
    return Done(()), l;
  }

  /** The end that is actually missing. */
  method UnresolvedError(ing: Ingester, rec: Record) returns (e: IngestError)
    requires ing.Valid() && rec.NamedRelation?
    ensures e == if Find(ing.graph.st, (rec.sourceType, Lower(rec.sourceName))).None? then UnknownNamed(rec.sourceType, rec.sourceName)
                 else UnknownNamed(rec.targetType, rec.targetName)
  {
    var src := ing.graph.FindByName(rec.sourceType, rec.sourceName);
    e := if src.None? then UnknownNamed(rec.sourceType, rec.sourceName) else UnknownNamed(rec.targetType, rec.targetName);
  }

  // ---------- whole ingests ----------

  /** Every record but a dropped type declaration was taken; each concept is
      there, and each relation is an edge. */
  ghost predicate SourceTaken(st: State, records: seq<Record>, l: Ledger) {
    && Fits(records, l) && (forall k :: 0 <= k < |records| ==> k in l.taken || records[k].RelationTypeDecl?)
    && (forall k :: k in l.taken ==> ConceptLogged(st.concepts, records, l, k))
    && (forall k :: k in l.taken ==> LinkLogged(LinksOf(st, NEW_SESSION), records, l, k))
  }

  ghost predicate Noted(opts: Options, s: Session, records: seq<Record>, l: Ledger) {
    && Fits(records, l)
    && (opts.prune ==> s.seenConcepts == StagedIds(records, l) && s.seenEdges == EmittedLinks(records, l))
    && s.declaredTypes == DeclaredBy(opts, records) && s.declaredRelationTypes == RelationTypesDeclaredBy(opts, records)
  }

  lemma PassingThrough(opts: Options, symmetric: map<string, bool>, again: bool, a: State, s: Session, b: State, t: Session, records: seq<Record>,
                       deferred: seq<Record>, waiting: seq<nat>, l: Ledger)
    requires Passing(opts, symmetric, again, a, s, records, |records|, deferred, waiting, l)
    requires Keeps(a, s, b, t) && ConceptView(b, t) == ConceptView(a, s) && b.schema == a.schema && SameProgress(s, t)
    ensures Passing(opts, symmetric, again, b, t, records, |records|, deferred, waiting, l)
  {
    hide Logged, Going, Repeats, Keeps;
    EdgesByKeeps(a, s, b, t);
    NamesByKeeps(a, s, b, t, 0);
    LoggedThrough(opts, a, s, b, t, records, l);
    if again { GoingThrough(opts, symmetric, a, s, b, t, records, l.taken); }
  }

  lemma RetriedThrough(opts: Options, symmetric: map<string, bool>, again: bool, a: State, s: Session, b: State, t: Session, records: seq<Record>,
                       deferred: seq<Record>, waiting: seq<nat>, d: nat, l: Ledger)
    requires Retrying(opts, symmetric, again, a, s, records, deferred, waiting, d, l)
    requires Keeps(a, s, b, t) && ConceptView(b, t) == ConceptView(a, s) && b.schema == a.schema && SameProgress(s, t)
    ensures Retrying(opts, symmetric, again, b, t, records, deferred, waiting, d, l)
  {
    hide Logged, Going, Repeats, Keeps;
    EdgesByKeeps(a, s, b, t);
    NamesByKeeps(a, s, b, t, 0);
    LoggedThrough(opts, a, s, b, t, records, l);
    if again { GoingThrough(opts, symmetric, a, s, b, t, records, l.taken); }
  }

  lemma AllTaken(opts: Options, symmetric: map<string, bool>, again: bool, st: State, s: Session, records: seq<Record>,
                 deferred: seq<Record>, waiting: seq<nat>, l: Ledger)
    requires Retrying(opts, symmetric, again, st, s, records, deferred, waiting, |waiting|, l) && NothingPending(s) && WellFormed(st)
    ensures SourceTaken(st, records, l) && (again ==> AllAbsorbed(opts, st, records))
    ensures Fits(records, l) && (opts.prune ==> s.seenConcepts == StagedIds(records, l) && s.seenEdges == EmittedLinks(records, l))
  {
    hide ConceptLogged, LinkLogged, Said, Absorbed, WellFormed, FreshElsewhere;
    assert ConceptView(st, s) == st.concepts && LinksOf(st, s) == LinksOf(st, NEW_SESSION);
    assert waiting[|waiting|..] == [];
    forall k | 0 <= k < |records| && again ensures Absorbed(opts, st, records[k]) {
      if k in l.taken { SaidIsAbsorbed(opts, st, s, records[k]); } else { DroppedIsAbsorbed(opts, st, records[k]); }
    }
  }

  lemma DroppedIsAbsorbed(opts: Options, st: State, rec: Record)
    requires Dropped(st.schema, true, rec)
    ensures Absorbed(opts, st, rec)
  {
  }

  /** The journal never shrinks, and grows unless everything was there already. */
  ghost predicate Traced(opts: Options, st: State, n: nat, m: nat, records: seq<Record>) {
    n <= m && (m == n ==> AllAbsorbed(opts, st, records))
  }

  lemma CoveredBy(opts: Options, symmetric: map<string, bool>, again: bool, st: State, s: Session, records: seq<Record>,
                  deferred: seq<Record>, waiting: seq<nat>, l: Ledger)
    requires Passing(opts, symmetric, again, st, s, records, |records|, deferred, waiting, l)
    ensures Covered(waiting, l.taken, |records|) && |waiting| == |deferred|
  {
  }

  lemma SilentAll(opts: Options, a: State, n: nat, st: State, s: Session, m: nat, records: seq<Record>, taken: set<nat>, early: set<nat>, waiting: seq<nat>)
    requires Plainly(opts, records) && Silent(opts, a, n, st, s, m, records, taken, waiting) && Idle(s)
    requires Covered(waiting, early, |records|) && early <= taken
    ensures Traced(opts, a, n, m, records)
  {
    hide Absorbed;
  }

  /** The first pass over the source, settled. */
  method TakeSource(ing: Ingester, records: seq<Record>, sourceFails: bool, ghost symmetric: map<string, bool>, ghost again: bool)
    returns (r: Ingested<seq<Record>>, ghost waiting: seq<nat>, ghost l: Ledger)
    requires ing.Valid() && ing.s == NEW_SESSION && forall rec :: rec in records ==> Readable(rec)
    requires again ==> Repeats(ing.opts, symmetric, records) && SymmetryWithin(ing.graph.st.schema, symmetric)
    modifies ing, ing.store, ing.graph`st, ing.graph`ix
    ensures ing.Valid() && (old(ing.InStep()) ==> ing.InStep()) && (r.Failed? ==> !r.error.PruneRefused?)
    ensures r.Done? ==> Retrying(ing.opts, symmetric, again, ing.graph.st, ing.s, records, r.value, waiting, 0, l)
    ensures r.Done? ==> |waiting| == |r.value| && Covered(waiting, l.taken, |records|)
    ensures r.Done? ==> forall rec :: rec in r.value ==> rec in records && (rec.NamedRelation? || rec.RelationTypeDecl?)
    ensures r.Done? ==> Idle(ing.s) && ing.s.declaredTypes == DeclaredBy(ing.opts, records)
    ensures r.Done? ==> ing.s.declaredRelationTypes == RelationTypesDeclaredBy(ing.opts, records)
    ensures r.Done? && Plainly(ing.opts, records) ==>
      Silent(ing.opts, old(ing.graph.st), |old(ing.store.log)|, ing.graph.st, ing.s, |ing.store.log|, records, l.taken, [])
    ensures old(AllAbsorbed(ing.opts, ing.graph.st, records)) ==>
      (r.Done? <==> !sourceFails) && ing.Untouched() && (r.Done? ==> forall rec :: rec in r.value ==> rec.RelationTypeDecl?)
    ensures old(OneNew(ing.opts, ing.graph.st, records, false) && ing.store.outcomes == []) && !sourceFails ==>
      r == Done([]) && ing.store.outcomes == []
    ensures old(OneNew(ing.opts, ing.graph.st, records, true) && ing.store.outcomes == []) && !sourceFails ==>
      ing.graph.st == LastDeclared(old(ing.graph.st), records)
    ensures NoRelationTypes(records) ==> ing.Calm()
  {
    hide WellFormed, SessionOk, AllAbsorbed, Repeats, Passing, Retrying, Keeps, Silent, WrittenAhead, Plainly, Covered, OneNew, LastDeclared, Acceptable, Backed, SameTypes;
    r, waiting, l := FirstPass(ing, records, symmetric, again);
    if r.Failed? { return; }
    if sourceFails { return Failed(SourceFailure), waiting, l; }
    ghost var a, s, k := ing.graph.st, ing.s, |ing.store.log|;
    CoveredBy(ing.opts, symmetric, again, a, s, records, r.value, waiting, l);
    var f := ing.Flush();
    if f.Failed? { return Failed(f.error), waiting, l; }
    if Plainly(ing.opts, records) {
      SilentThrough(ing.opts, old(ing.graph.st), |old(ing.store.log)|, a, s, k, ing.graph.st, ing.s, |ing.store.log|, records, l.taken, []);
    }
    PassingThrough(ing.opts, symmetric, again, a, s, ing.graph.st, ing.s, records, r.value, waiting, l);
    StartRetrying(ing.opts, symmetric, again, ing.graph.st, ing.s, records, r.value, waiting, l);
  }

  /** The source drained and everything settled. */
  method Drain(ing: Ingester, records: seq<Record>, sourceFails: bool, ghost symmetric: map<string, bool>, ghost again: bool)
    returns (r: Ingested<()>, ghost l: Ledger)
    requires ing.Valid() && ing.s == NEW_SESSION && forall rec :: rec in records ==> Readable(rec)
    requires again ==> Repeats(ing.opts, symmetric, records) && SymmetryWithin(ing.graph.st.schema, symmetric)
    modifies ing, ing.store, ing.graph`st, ing.graph`ix
    ensures ing.Valid() && (old(ing.InStep()) ==> ing.InStep()) && (r.Failed? ==> !r.error.PruneRefused?)
    ensures r.Done? ==> Idle(ing.s) && SourceTaken(ing.graph.st, records, l) && Noted(ing.opts, ing.s, records, l)
    ensures r.Done? && again ==> AllAbsorbed(ing.opts, ing.graph.st, records)
    ensures old(AllAbsorbed(ing.opts, ing.graph.st, records)) ==> (r.Done? <==> !sourceFails) && ing.Untouched()
    ensures r.Done? && Plainly(ing.opts, records) ==>
      Traced(ing.opts, old(ing.graph.st), |old(ing.store.log)|, |ing.store.log|, records)
    ensures old(OneNew(ing.opts, ing.graph.st, records, false) && ing.store.outcomes == []) && !sourceFails ==>
      r.Done? && ing.store.outcomes == []
    ensures old(OneNew(ing.opts, ing.graph.st, records, true) && ing.store.outcomes == []) && !sourceFails ==>
      ing.graph.st == LastDeclared(old(ing.graph.st), records)
    ensures NoRelationTypes(records) ==> ing.Calm()
  {
    hide WellFormed, SessionOk, AllAbsorbed, Repeats, Retrying, Keeps, SourceTaken, Silent, WrittenAhead, Traced, Covered, Plainly, Acceptable, NewAt, LastDeclared, Backed, SameTypes;
    var first;
    ghost var waiting;
    first, waiting, l := TakeSource(ing, records, sourceFails, symmetric, again);
    if first.Failed? { return Failed(first.error), l; }
    ghost var early := l.taken;
    r, l := RetryPass(ing, records, first.value, waiting, symmetric, again, l, old(ing.graph.st), |old(ing.store.log)|);
    if r.Failed? { return; }
    ghost var a, s, k := ing.graph.st, ing.s, |ing.store.log|;
    assert waiting[..|first.value|] == waiting;
    r := ing.Flush();
    if r.Failed? { return; }
    if Plainly(ing.opts, records) {
      SilentThrough(ing.opts, old(ing.graph.st), |old(ing.store.log)|, a, s, k, ing.graph.st, ing.s, |ing.store.log|, records, l.taken, waiting);
      SilentAll(ing.opts, old(ing.graph.st), |old(ing.store.log)|, ing.graph.st, ing.s, |ing.store.log|, records, l.taken, early, waiting);
    }
    RetriedThrough(ing.opts, symmetric, again, a, s, ing.graph.st, ing.s, records, first.value, waiting, |waiting|, l);
    AllTaken(ing.opts, symmetric, again, ing.graph.st, ing.s, records, first.value, waiting, l);
  }

  // ---------- pruning a run ----------

  /** Of the declared types exactly the staged concepts are left; everything
      of other types stays. */
  ghost predicate ConceptsMatch(drained: State, st: State, records: seq<Record>, l: Ledger, types: set<string>)
    requires Fits(records, l)
  {
    && (forall id :: id in st.concepts <==>
          id in drained.concepts && (drained.concepts[id].ctype in types ==> id in StagedIds(records, l)))
    && (forall id :: id in st.concepts ==> st.concepts[id] == drained.concepts[id])
    && (forall k :: k in l.taken ==> ConceptLogged(st.concepts, records, l, k))
  }

  /** Of the declared relation types, links that leave a staged concept were
      emitted; without declared inverses, every other link between two concepts
      that stay is left. */
  ghost predicate LinksMatch(drained: State, st: State, records: seq<Record>, l: Ledger, relationTypes: set<string>)
    requires Fits(records, l)
  {
    && (forall id :: id in st.relations ==> id in drained.relations && st.relations[id] == drained.relations[id])
    && (forall id :: id in st.relations && st.relations[id].rtype in relationTypes && st.relations[id].source in StagedIds(records, l)
          ==> Emitted(st.schema, EmittedLinks(records, l), st.relations[id]))
    && (NoInverses(drained.schema, relationTypes) ==>
          forall id :: id in drained.relations && Stays(drained, st, records, l, relationTypes, drained.relations[id]) ==> id in st.relations)
  }

  /** An edge the prune has no reason to take. */
  predicate Stays(drained: State, st: State, records: seq<Record>, l: Ledger, relationTypes: set<string>, r: Relation)
    requires Fits(records, l)
  {
    && r.source in st.concepts && r.target in st.concepts
    && (Emitted(drained.schema, EmittedLinks(records, l), r) || r.rtype !in relationTypes)
  }

  /** A pruned graph against the records of its source. */
  ghost predicate MatchesSource(drained: State, st: State, records: seq<Record>, l: Ledger, types: set<string>, relationTypes: set<string>) {
    && SourceTaken(drained, records, l) && st.schema == drained.schema
    && ConceptsMatch(drained, st, records, l, types) && LinksMatch(drained, st, records, l, relationTypes)
  }

  lemma PrunedConcepts(drained: State, s: Session, records: seq<Record>, l: Ledger, st: State)
    requires SourceTaken(drained, records, l) && s.seenConcepts == StagedIds(records, l)
    requires st.concepts == WithoutConcepts(drained, StaleConcepts(drained, s.declaredTypes, s.seenConcepts)).concepts
    ensures ConceptsMatch(drained, st, records, l, s.declaredTypes)
  {
    forall k | k in l.taken ensures ConceptLogged(st.concepts, records, l, k) {
      assert ConceptLogged(drained.concepts, records, l, k);
      if records[k].ConceptRecord? { assert l.ids[k] in StagedIds(records, l); }
    }
  }

  lemma PrunedLinks(drained: State, s: Session, records: seq<Record>, l: Ledger, st: State)
    requires Fits(records, l) && s.seenConcepts == StagedIds(records, l) && s.seenEdges == EmittedLinks(records, l)
    requires WellFormed(drained)
    requires LinksPruned(WithoutConcepts(drained, StaleConcepts(drained, s.declaredTypes, s.seenConcepts)), st, s)
    ensures st.schema == drained.schema && LinksMatch(drained, st, records, l, s.declaredRelationTypes)
  {
    var gone := StaleConcepts(drained, s.declaredTypes, s.seenConcepts);
    var w := WithoutConcepts(drained, gone);
    forall id | NoInverses(drained.schema, s.declaredRelationTypes) && id in drained.relations
      && Stays(drained, st, records, l, s.declaredRelationTypes, drained.relations[id])
      ensures id in st.relations
    {
      assert drained.relations[id].source in w.concepts && drained.relations[id].target in w.concepts;
      assert id in w.relations && w.relations[id] == drained.relations[id];
      assert !Takeable(w, s.declaredRelationTypes, s.seenConcepts, s.seenEdges, w.relations[id]);
    }
  }

  method PruneRun(ing: Ingester, ghost records: seq<Record>, ghost l: Ledger) returns (r: Ingested<()>)
    requires ing.Valid() && Idle(ing.s) && !ing.graph.bulk && ing.opts.prune
    requires SourceTaken(ing.graph.st, records, l) && Noted(ing.opts, ing.s, records, l)
    modifies ing.store, ing.graph`st, ing.graph`ix
    ensures ing.Valid() && (old(ing.InStep()) ==> ing.InStep())
    ensures r.Failed? && r.error.PruneRefused? <==> OverShare(old(ing.graph.st), ing.s, ing.opts.pruneMaxFraction)
    ensures r.Failed? && r.error.PruneRefused? ==> ing.graph.st == old(ing.graph.st) && ing.store.log == old(ing.store.log)
    ensures r.Done? ==>
      MatchesSource(old(ing.graph.st), ing.graph.st, records, l, DeclaredBy(ing.opts, records), RelationTypesDeclaredBy(ing.opts, records))
    ensures ing.Calm()
  {
    hide SourceTaken, Consistent, ConceptsMatch, LinksMatch, OverShare, Backed, SameTypes;
    hide SchemaSound, SchemaSync, ConceptsPending, NamesPending, RelationsPending, BelowWatermark, UpdatesPending, WellFormed;
    ghost var drained := ing.graph.st;
    r := ing.Prune();
    if r.Done? {
      PrunedConcepts(drained, ing.s, records, l, ing.graph.st);
      PrunedLinks(drained, ing.s, records, l, ing.graph.st);
    }
  }

  /** Drain the source, then the deferred records, then prune. `drained` and
      `log` are the graph and the journal before the prune. */
  method RunSource(ing: Ingester, records: seq<Record>, sourceFails: bool, ghost symmetric: map<string, bool>, ghost again: bool)
    returns (r: Ingested<()>, ghost l: Ledger, ghost drained: State, ghost log: seq<LogRecord>)
    requires ing.Valid() && ing.s == NEW_SESSION && forall rec :: rec in records ==> Readable(rec)
    requires again ==> Repeats(ing.opts, symmetric, records) && SymmetryWithin(ing.graph.st.schema, symmetric)
    requires ing.opts.prune ==> !ing.graph.bulk
    modifies ing, ing.store, ing.graph`st, ing.graph`ix
    ensures ing.Valid() && (old(ing.InStep()) ==> ing.InStep())
    ensures r.Done? ==> !ing.s.schemaDirty && SourceTaken(drained, records, l) && (!ing.opts.prune ==> ing.graph.st == drained)
    ensures r.Done? && ing.opts.prune ==>
      MatchesSource(drained, ing.graph.st, records, l, DeclaredBy(ing.opts, records), RelationTypesDeclaredBy(ing.opts, records))
    ensures r.Failed? && r.error.PruneRefused? ==> ing.opts.prune && !ing.s.schemaDirty && Refused(ing.opts, drained, ing.s, records, l)
    ensures r.Failed? && r.error.PruneRefused? ==> ing.graph.st == drained && ing.store.log == log
    ensures r.Done? && again ==> AllAbsorbed(ing.opts, ing.graph.st, records)
    ensures old(AllAbsorbed(ing.opts, ing.graph.st, records)) ==> (r.Done? <==> !sourceFails) && ing.Untouched()
    ensures r.Done? && Plainly(ing.opts, records) ==>
      Traced(ing.opts, old(ing.graph.st), |old(ing.store.log)|, |ing.store.log|, records)
    ensures old(OneNew(ing.opts, ing.graph.st, records, false) && ing.store.outcomes == []) && !sourceFails ==>
      r.Done? && ing.store.outcomes == []
    ensures old(OneNew(ing.opts, ing.graph.st, records, true) && ing.store.outcomes == []) && !sourceFails ==>
      ing.graph.st == LastDeclared(old(ing.graph.st), records)
    ensures NoRelationTypes(records) ==> ing.Calm()
  {
    hide SourceTaken, SessionOk, Consistent, MatchesSource, AllAbsorbed, Repeats, OverShare, Noted, Backed, SameTypes;
    r, l := Drain(ing, records, sourceFails, symmetric, again);
    drained, log := ing.graph.st, ing.store.log;
    if r.Done? && ing.opts.prune {
      NeverBoth(ing.opts, ing.graph.st, symmetric, again, records);
      NeverBoth(ing.opts, old(ing.graph.st), symmetric, again, records);
      r := PruneRun(ing, records, l);
    }
  }

  /** The prune was refused: some declared type would lose too large a share. */
  ghost predicate Refused(opts: Options, drained: State, s: Session, records: seq<Record>, l: Ledger) {
    SourceTaken(drained, records, l) && Noted(opts, s, records, l) && OverShare(drained, s, opts.pruneMaxFraction)
  }

  lemma NeverBoth(opts: Options, st: State, symmetric: map<string, bool>, again: bool, records: seq<Record>)
    requires opts.prune && (again ==> Repeats(opts, symmetric, records))
    ensures !again && !AllAbsorbed(opts, st, records)
  {
  }

  /** `ingest_records_with`. Whatever happens, the live schema is the last
      journaled one when it returns, and memory and disk still hold the same
      concepts. `s` is the final state of the session, `drained` and `log` the
      graph and the journal before the prune. */
  method IngestRecordsWith(graph: OntologyGraph, store: LogStore, opts: Options, records: seq<Record>, sourceFails: bool, ghost symmetric: map<string, bool>)
    returns (r: Ingested<()>, ghost s: Session, ghost l: Ledger, ghost drained: State, ghost log: seq<LogRecord>, ghost astray: bool)
    requires graph.Valid() && SchemaSound(graph.st) && LastSchema(store.log) == Some(graph.st.schema)
    requires (forall rec :: rec in records ==> Readable(rec)) && (opts.prune ==> !graph.bulk)
    modifies graph`st, graph`ix, store
    ensures graph.Valid() && LastSchema(store.log) == Some(graph.st.schema) && (r.Done? ==> SchemaSound(graph.st))
    ensures old(Durable(graph.st, store.log)) ==> Backed(graph.st, store.log, astray)
    ensures astray ==> old(!Recovers(graph.st, store.log)) || !NoRelationTypes(records)
    ensures r.Done? ==> SourceTaken(drained, records, l) && (!opts.prune ==> graph.st == drained)
    ensures r.Done? && opts.prune ==>
      MatchesSource(drained, graph.st, records, l, DeclaredBy(opts, records), RelationTypesDeclaredBy(opts, records))
    ensures r.Failed? && r.error.PruneRefused? ==>
      opts.prune && Refused(opts, drained, s, records, l) && graph.st == drained && store.log == log
    ensures r.Done? && Repeats(opts, symmetric, records) && old(SymmetryWithin(graph.st.schema, symmetric)) ==>
      AllAbsorbed(opts, graph.st, records)
    ensures old(AllAbsorbed(opts, graph.st, records)) ==>
      (r.Done? <==> !sourceFails) && graph.st == old(graph.st) && store.log == old(store.log)
    ensures r.Done? && Plainly(opts, records) ==> Traced(opts, old(graph.st), |old(store.log)|, |store.log|, records)
    ensures old(OneNew(opts, graph.st, records, false) && store.outcomes == []) && !sourceFails ==>
      r.Done? && store.outcomes == []
    ensures old(OneNew(opts, graph.st, records, true) && store.outcomes == []) && !sourceFails ==>
      graph.st == LastDeclared(old(graph.st), records)
  {
    hide SourceTaken, Consistent, MatchesSource, Repeatable, OverShare, WellFormed, Recovers;
    var ing := new Ingester(graph, store, opts.(upsert := opts.upsert || opts.prune));
    SameOptions(opts, ing.opts, graph.st, records);
    ghost var again := Repeats(opts, symmetric, records) && SymmetryWithin(graph.st.schema, symmetric);
    r, l, drained, log := RunSource(ing, records, sourceFails, symmetric, again);
    s := ing.s;
    SameOptions(opts, ing.opts, graph.st, records);
    if r.Failed? && r.error.PruneRefused? { SameRefusal(opts, ing.opts, drained, s, records, l); }
    if r.Failed? { ing.RollbackSchema(); }
    astray := ing.astray;
  }

  lemma SameOptions(a: Options, b: Options, st: State, records: seq<Record>)
    requires b == a.(upsert := a.upsert || a.prune)
    ensures DeclaredBy(b, records) == DeclaredBy(a, records) && RelationTypesDeclaredBy(b, records) == RelationTypesDeclaredBy(a, records)
    ensures a.upsert ==> b == a
    ensures AllAbsorbed(a, st, records) ==> a.upsert && b == a
    ensures forall declared :: OneNew(a, st, records, declared) ==> a.upsert && b == a
  {
  }

  lemma SameRefusal(a: Options, b: Options, st: State, s: Session, records: seq<Record>, l: Ledger)
    requires b == a.(upsert := a.upsert || a.prune) && Refused(b, st, s, records, l)
    ensures Refused(a, st, s, records, l)
  {
    hide SourceTaken, OverShare;
  }

  /** The same plain source taken twice by an upsert without a prune. The second
      run journals nothing and changes nothing exactly when the graph that the
      first one leaves has all that the records say; and it has if the records
      each name their own thing and none of them stops a relation type from
      being symmetric. */
  method IngestTwice(graph: OntologyGraph, store: LogStore, opts: Options, records: seq<Record>, ghost symmetric: map<string, bool>)
    returns (first: Ingested<()>, second: Ingested<()>, ghost st: State, ghost log: seq<LogRecord>)
    requires graph.Valid() && SchemaSound(graph.st) && LastSchema(store.log) == Some(graph.st.schema)
    requires Plainly(opts, records)
    modifies graph`st, graph`ix, store
    ensures first.Done? ==> (second.Done? && graph.st == st && store.log == log <==> AllAbsorbed(opts, st, records))
    ensures first.Done? && Repeatable(symmetric, records) && old(SymmetryWithin(graph.st.schema, symmetric)) ==> AllAbsorbed(opts, st, records)
  {
    hide SourceTaken, Consistent, Repeatable, AllAbsorbed, WellFormed;
    PlainReadable(opts, records);
    ghost var s, l, drained, before, astray;
    first, s, l, drained, before, astray := IngestRecordsWith(graph, store, opts, records, false, symmetric);
    second, st, log := first, graph.st, store.log;
    if first.Done? { second, s, l, drained, before, astray := IngestRecordsWith(graph, store, opts, records, false, symmetric); }
  }

  lemma PlainReadable(opts: Options, records: seq<Record>)
    requires Plainly(opts, records)
    ensures forall rec :: rec in records ==> Readable(rec)
  {
    forall rec | rec in records ensures Readable(rec) {
      var i :| 0 <= i < |records| && records[i] == rec;
      assert Plain(records[i]);
    }
  }

  // ---------- relations only ----------

  /** A source of relation records, flushed at the end. It is refused at the
      same record, with the same error, as adding the relations one at a time,
      and if none is refused the graph ends with the same edges. */
  method IngestRelations(ing: Ingester, rels: seq<Relation>) returns (r: Ingested<()>, accepted: nat)
    requires ing.Valid() && NothingPending(ing.s) && !ing.s.schemaDirty
    modifies ing, ing.store, ing.graph`st, ing.graph`ix
    ensures ing.Valid() && (old(ing.InStep()) ==> ing.InStep())
    ensures NotLost(r) ==> SameOutcome(AddSequentially(old(ing.graph.st), rels), r, accepted)
    ensures r.Done? ==> AsSequential(old(ing.graph.st), rels, Edges(ing.graph.st))
    ensures r.Done? ==> ing.graph.st.concepts == old(ing.graph.st).concepts && ing.graph.st.schema == old(ing.graph.st).schema
  {
    hide Backed;
    ghost var st := ing.graph.st;
    accepted := 0;
    for i := 0 to |rels|
      invariant ing.Valid() && ing.s.pending == [] && !ing.s.schemaDirty && accepted == i && ing.s.pendingUpdates == []
      invariant old(ing.InStep()) ==> ing.InStep()
      invariant ing.graph.st.concepts == st.concepts && ing.graph.st.schema == st.schema
      invariant AsSequential(st, rels[..i], EdgeView(ing.graph.st, ing.s))
    {
      var added := AddNext(ing, st, rels, i);
      if added.Failed? { return added, accepted; }
      accepted := accepted + 1;
    }
    assert rels[..|rels|] == rels;
    r := ing.Flush();
  }

  method AddNext(ing: Ingester, ghost st: State, rels: seq<Relation>, i: nat) returns (r: Ingested<()>)
    requires ing.Valid() && ing.s.pending == [] && !ing.s.schemaDirty && ing.s.pendingUpdates == [] && i < |rels|
    requires ing.graph.st.concepts == st.concepts && ing.graph.st.schema == st.schema
    requires AsSequential(st, rels[..i], EdgeView(ing.graph.st, ing.s))
    modifies ing, ing.store, ing.graph`st, ing.graph`ix
    ensures ing.Valid() && (old(ing.InStep()) ==> ing.InStep())
    ensures r.Failed? && NotLost(r) ==> SameOutcome(AddSequentially(st, rels), r, i)
    ensures r.Done? ==> ing.s.pending == [] && !ing.s.schemaDirty && ing.s.pendingUpdates == []
    ensures r.Done? ==> ing.graph.st.concepts == st.concepts && ing.graph.st.schema == st.schema
    ensures r.Done? ==> AsSequential(st, rels[..i + 1], EdgeView(ing.graph.st, ing.s))
  {
    hide Backed;
    SequentialNext(st, rels, i, EdgeView(ing.graph.st, ing.s));
    r := ing.AddRelation(rels[i]);
    if r.Failed? && NotLost(r) { RefusedStays(st, rels, i + 1); }
  }

  ghost predicate SameOutcome(o: Outcome, r: Ingested<()>, accepted: nat) {
    && accepted == o.accepted
    && (if r.Done? then o.refusal.None? else r.error.GraphFailure? && o.refusal == Some(r.error.error))
  }

  /** One-at-a-time insertion has accepted all of `rels` and sees these edges. */
  ghost predicate AsSequential(st: State, rels: seq<Relation>, edges: seq<Edge>) {
    var o := AddSequentially(st, rels);
    && WellFormed(o.st) && o.refusal.None? && o.accepted == |rels| && o.st.concepts == st.concepts && o.st.schema == st.schema
    && Edges(o.st) == edges
  }

  lemma SequentialNext(st: State, rels: seq<Relation>, i: nat, edges: seq<Edge>)
    requires i < |rels| && AsSequential(st, rels[..i], edges)
    ensures var r := Verdict(st.schema, st.concepts, edges, rels[i]);
      && (r.Done? ==> AsSequential(st, rels[..i + 1], edges + Effects(st.schema, rels[i])))
      && (r.Failed? ==> SameOutcome(AddSequentially(st, rels[..i + 1]), r, i))
  {
    assert rels[..i + 1][..i] == rels[..i] && rels[..i + 1][i] == rels[i];
    AddedLog(AddSequentially(st, rels[..i]).st, rels[i]);
  }

  /** After a refusal nothing more is taken. */
  lemma {:induction false} RefusedStays(st: State, rels: seq<Relation>, k: nat)
    requires k <= |rels| && AddSequentially(st, rels[..k]).refusal.Some?
    ensures AddSequentially(st, rels) == AddSequentially(st, rels[..k])
    decreases |rels|
  {
    if k == |rels| {
      assert rels[..k] == rels;
    } else {
      var l := |rels| - 1;
      assert rels[..l][..k] == rels[..k];
      RefusedStays(st, rels[..l], k);
    }
  }

  /** So no end ever exceeds the limit of a type that is not symmetric. */
  lemma {:induction false} LimitsHold(st: State, rels: seq<Relation>, t: string)
    requires WellFormed(st) && t in st.schema.relationTypes && !st.schema.relationTypes[t].symmetric
    requires LimitsRespected(st.schema, Edges(st), t)
    ensures var o := AddSequentially(st, rels);
      WellFormed(o.st) && o.st.schema == st.schema && o.st.concepts == st.concepts && LimitsRespected(st.schema, Edges(o.st), t)
  {
    if rels != [] {
      var l := |rels| - 1;
      LimitsHold(st, rels[..l], t);
      var o := AddSequentially(st, rels[..l]);
      AddedLog(o.st, rels[l]);
      if o.refusal.None? && GraphState.AddRelation(o.st, rels[l]).1.Ok? {
        AcceptedRespectsLimits(st.schema, st.concepts, Edges(o.st), rels[l], t);
      }
    }
  }
}
