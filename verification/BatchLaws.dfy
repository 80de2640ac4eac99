/** Why batching is invisible: a batch of relations behaves like the relations
    added one at a time, and an admitted batch of concepts applies, and replays
    from any durable prefix, without a refusal. */
module BatchLaws {
  import opened Collections
  import opened Text
  import opened Errors
  import opened OntologySchema
  import opened GraphState
  import opened StateLaws

  // ---------- edges up to ids ----------

  datatype Edge = Edge(rtype: string, source: nat, target: nat, weight: int, properties: Props)

  function EdgeOf(r: Relation): Edge { Edge(r.rtype, r.source, r.target, r.weight, r.properties) }

  /** The live edges without their ids, in insertion order. */
  function EdgeLog(relations: map<nat, Relation>, order: seq<nat>): seq<Edge>
    requires forall id :: id in order ==> id in relations
  {
    seq(|order|, i requires 0 <= i < |order| => EdgeOf(relations[order[i]]))
  }

  function Edges(st: State): seq<Edge>
    requires WellOrdered(st)
  {
    EdgeLog(st.relations, st.order)
  }

  predicate WellOrdered(st: State) { forall id :: id in st.order ==> id in st.relations }

  predicate LeavesAs(e: Edge, source: nat, rtype: string) { e.source == source && e.rtype == rtype }
  predicate EntersAs(e: Edge, target: nat, rtype: string) { e.target == target && e.rtype == rtype }

  ghost predicate LogHasOut(log: seq<Edge>, source: nat, rtype: string) {
    exists i :: 0 <= i < |log| && LeavesAs(log[i], source, rtype)
  }

  ghost predicate LogHasIn(log: seq<Edge>, target: nat, rtype: string) {
    exists i :: 0 <= i < |log| && EntersAs(log[i], target, rtype)
  }

  lemma DegreesByLog(st: State, n: nat, t: string)
    requires WellFormed(st)
    ensures HasOut(st, n, t) <==> LogHasOut(Edges(st), n, t)
    ensures HasIn(st, n, t) <==> LogHasIn(Edges(st), n, t)
  {
    if HasOut(st, n, t) {
      var r :| r in st.relations && st.relations[r].source == n && st.relations[r].rtype == t;
      var i :| 0 <= i < |st.order| && st.order[i] == r;
      assert LeavesAs(Edges(st)[i], n, t);
    }
    if HasIn(st, n, t) {
      var r :| r in st.relations && st.relations[r].target == n && st.relations[r].rtype == t;
      var i :| 0 <= i < |st.order| && st.order[i] == r;
      assert EntersAs(Edges(st)[i], n, t);
    }
  }

  /** The checks of `prepare_relation` that do not look at other edges. */
  ghost function StaticRefusal(schema: Schema, concepts: map<nat, Concept>, rel: Relation): Option<GraphError> {
    Refusal(State(schema, concepts, map[], [], 1, 1), rel)
  }

  /** `prepare_relation` over a list of edges. */
  ghost function LogRefusal(schema: Schema, concepts: map<nat, Concept>, log: seq<Edge>, rel: Relation): Option<GraphError> {
    var early := StaticRefusal(schema, concepts, rel);
    if early.Some? then early else
    if rel.rtype !in schema.relationTypes then None else
    var rt := schema.relationTypes[rel.rtype];
    if rt.LimitsOut() && LogHasOut(log, rel.source, rel.rtype) then Some(CardinalityViolation(rel.rtype, rel.source)) else
    if rt.LimitsIn() && LogHasIn(log, rel.target, rel.rtype) then Some(CardinalityViolation(rel.rtype, rel.target)) else
    None
  }

  lemma RefusalByLog(st: State, rel: Relation)
    requires WellFormed(st)
    ensures Refusal(st, rel) == LogRefusal(st.schema, st.concepts, Edges(st), rel)
  {
    DegreesByLog(st, rel.source, rel.rtype);
    DegreesByLog(st, rel.target, rel.rtype);
  }

  predicate Mirrored(schema: Schema, rel: Relation) {
    rel.rtype in schema.relationTypes && schema.relationTypes[rel.rtype].symmetric && rel.source != rel.target
  }

  /** What one accepted relation adds: itself and, if symmetric, its inverse. */
  function Effects(schema: Schema, rel: Relation): seq<Edge> {
    if Mirrored(schema, rel) then [EdgeOf(rel), EdgeOf(Inverse(rel, 0))] else [EdgeOf(rel)]
  }

  function EffectsAll(schema: Schema, rels: seq<Relation>): seq<Edge> {
    if rels == [] then [] else EffectsAll(schema, rels[..|rels| - 1]) + Effects(schema, rels[|rels| - 1])
  }

  lemma EffectsSnoc(schema: Schema, rels: seq<Relation>, rel: Relation)
    ensures EffectsAll(schema, rels + [rel]) == EffectsAll(schema, rels) + Effects(schema, rel)
  {
    assert (rels + [rel])[..|rels|] == rels;
  }

  lemma {:induction false} EffectsFront(schema: Schema, rels: seq<Relation>)
    requires rels != []
    ensures EffectsAll(schema, rels) == Effects(schema, rels[0]) + EffectsAll(schema, rels[1..])
  {
    var l := |rels| - 1;
    if l > 0 {
      EffectsFront(schema, rels[..l]);
      assert rels[..l][1..] == rels[1..][..l - 1];
      assert rels[1..] == rels[1..][..l - 1] + [rels[l]];
      EffectsSnoc(schema, rels[1..][..l - 1], rels[l]);
    } else {
      assert rels[..l] == [] && rels[1..] == [];
    }
  }

  lemma LinkedLog(st: State, rel: Relation)
    requires WellFormed(st) && rel.id > 0 && rel.id !in st.relations && rel.source in st.concepts && rel.target in st.concepts
    ensures WellFormed(Linked(st, rel)) && Edges(Linked(st, rel)) == Edges(st) + [EdgeOf(rel)]
  {
    LinkedWellFormed(st, rel);
  }

  lemma AppliedLog(st: State, rel: Relation)
    requires WellFormed(st) && rel.id > 0 && rel.id !in st.relations && rel.source in st.concepts && rel.target in st.concepts
    requires rel.rtype in st.schema.relationTypes
    ensures var next := ApplyRelation(st, rel).0;
      && WellFormed(next) && Edges(next) == Edges(st) + Effects(st.schema, rel)
      && next.schema == st.schema && next.concepts == st.concepts
  {
    LinkedLog(st, rel);
    var st1 := Linked(st, rel);
    if Mirrored(st.schema, rel) {
      LinkedLog(st1, Inverse(rel, st1.nextRelation));
      assert Edges(st) + [EdgeOf(rel)] + [EdgeOf(Inverse(rel, st1.nextRelation))] == Edges(st) + Effects(st.schema, rel);
    }
  }

  // ---------- relations one at a time ----------

  /** Sequential insertion: the state reached, and the first refusal if any. */
  datatype Outcome = Outcome(st: State, accepted: nat, refusal: Option<GraphError>)

  /** One more relation, unless one was already refused. */
  ghost function Advance(o: Outcome, rel: Relation): Outcome {
    if o.refusal.Some? then o else
    var (next, r) := AddRelation(o.st, rel);
    if r.Ok? then Outcome(next, o.accepted + 1, None) else Outcome(o.st, o.accepted, Some(r.error))
  }

  ghost function AddSequentially(st: State, rels: seq<Relation>): Outcome {
    if rels == [] then Outcome(st, 0, None) else Advance(AddSequentially(st, rels[..|rels| - 1]), rels[|rels| - 1])
  }

  lemma AddedLog(st: State, rel: Relation)
    requires WellFormed(st)
    ensures var (next, r) := AddRelation(st, rel);
      && (r.Ok? <==> LogRefusal(st.schema, st.concepts, Edges(st), rel).None?)
      && (r.Err? ==> Some(r.error) == LogRefusal(st.schema, st.concepts, Edges(st), rel))
      && WellFormed(next) && next.schema == st.schema && next.concepts == st.concepts
      && (r.Ok? ==> Edges(next) == Edges(st) + Effects(st.schema, rel))
  {
    RefusalByLog(st, rel);
    PreparedFresh(st, rel);
    var (st1, p) := PrepareRelation(st, rel);
    if p.Ok? {
      AppliedLog(st1, p.value);
      assert Effects(st.schema, p.value) == Effects(st.schema, rel);
    }
  }

  // ---------- a batch of relations ----------

  /** The pending sibling test of the ingester. */
  predicate Sibling(rt: RelationType, p: Relation, rel: Relation) {
    && p.rtype == rel.rtype
    && ((rt.LimitsOut() && (p.source == rel.source || (rt.symmetric && p.target == rel.source)))
        || (rt.LimitsIn() && (p.target == rel.target || (rt.symmetric && p.source == rel.target))))
  }

  predicate HasSibling(schema: Schema, pending: seq<Relation>, rel: Relation) {
    rel.rtype in schema.relationTypes && exists i :: 0 <= i < |pending| && Sibling(schema.relationTypes[rel.rtype], pending[i], rel)
  }

  /** Without a pending sibling, what is pending cannot change the verdict. */
  lemma {:induction false} NoSiblingNoDegree(schema: Schema, pending: seq<Relation>, rel: Relation)
    requires rel.rtype in schema.relationTypes && !HasSibling(schema, pending, rel)
    ensures schema.relationTypes[rel.rtype].LimitsOut() ==> !LogHasOut(EffectsAll(schema, pending), rel.source, rel.rtype)
    ensures schema.relationTypes[rel.rtype].LimitsIn() ==> !LogHasIn(EffectsAll(schema, pending), rel.target, rel.rtype)
  {
    if pending != [] {
      var l := |pending| - 1;
      var rt := schema.relationTypes[rel.rtype];
      forall i | 0 <= i < l ensures !Sibling(rt, pending[..l][i], rel) { assert pending[..l][i] == pending[i]; }
      NoSiblingNoDegree(schema, pending[..l], rel);
      var before, last := EffectsAll(schema, pending[..l]), Effects(schema, pending[l]);
      assert !Sibling(rt, pending[l], rel);
      forall i | 0 <= i < |before + last|
        ensures rt.LimitsOut() ==> !LeavesAs((before + last)[i], rel.source, rel.rtype)
        ensures rt.LimitsIn() ==> !EntersAs((before + last)[i], rel.target, rel.rtype)
      {
        if i < |before| {
          assert (before + last)[i] == before[i];
        } else {
          assert (before + last)[i] == last[i - |before|];
        }
      }
    }
  }

  /** So the batch sees the refusal that one-at-a-time insertion would see. */
  lemma SameVerdict(schema: Schema, concepts: map<nat, Concept>, log: seq<Edge>, pending: seq<Relation>, rel: Relation)
    requires !HasSibling(schema, pending, rel)
    ensures LogRefusal(schema, concepts, log, rel) == LogRefusal(schema, concepts, log + EffectsAll(schema, pending), rel)
  {
    if rel.rtype in schema.relationTypes {
      NoSiblingNoDegree(schema, pending, rel);
      var later := EffectsAll(schema, pending);
      HasConcat(log, later, rel.source, rel.target, rel.rtype);
    }
  }

  lemma HasConcat(a: seq<Edge>, b: seq<Edge>, source: nat, target: nat, t: string)
    ensures LogHasOut(a + b, source, t) <==> LogHasOut(a, source, t) || LogHasOut(b, source, t)
    ensures LogHasIn(a + b, target, t) <==> LogHasIn(a, target, t) || LogHasIn(b, target, t)
  {
    forall i | 0 <= i < |b| ensures (a + b)[|a| + i] == b[i] { }
    if i :| 0 <= i < |a| && LeavesAs(a[i], source, t) { assert LeavesAs((a + b)[i], source, t); }
    if i :| 0 <= i < |b| && LeavesAs(b[i], source, t) { assert LeavesAs((a + b)[|a| + i], source, t); }
    if i :| 0 <= i < |a| && EntersAs(a[i], target, t) { assert EntersAs((a + b)[i], target, t); }
    if i :| 0 <= i < |b| && EntersAs(b[i], target, t) { assert EntersAs((a + b)[|a| + i], target, t); }
  }

  /** A pending relation can be applied whenever the batch is flushed. */
  ghost predicate Flushable(st: State, r: Relation) {
    && 0 < r.id < st.nextRelation && r.id !in st.relations && r.source in st.concepts && r.target in st.concepts
    && r.rtype in st.schema.relationTypes
  }

  ghost predicate RelationsPending(st: State, pending: seq<Relation>) {
    && (forall i :: 0 <= i < |pending| ==> Flushable(st, pending[i]))
    && (forall i, j :: 0 <= i < j < |pending| ==> pending[i].id != pending[j].id)
  }

  /** Each pending relation passed the checks of the graph, and those of the
      relations that wait before it. */
  ghost predicate RelationsDue(st: State, pending: seq<Relation>) {
    forall i :: 0 <= i < |pending| ==> DueAt(st, pending, i)
  }

  ghost predicate DueAt(st: State, pending: seq<Relation>, i: nat)
    requires i < |pending|
  {
    && Refusal(st, pending[i]).None?
    && LogRefusal(st.schema, st.concepts, EffectsAll(st.schema, pending[..i]), pending[i]).None?
  }

  lemma DueSnoc(st: State, pending: seq<Relation>, rel: Relation)
    requires RelationsDue(st, pending) && Refusal(st, rel).None? && !HasSibling(st.schema, pending, rel)
    ensures RelationsDue(st, pending + [rel])
  {
    var more := pending + [rel];
    forall i | 0 <= i < |more| ensures DueAt(st, more, i) {
      assert more[..i] == pending[..i];
      if i < |pending| {
        assert DueAt(st, pending, i);
      } else {
        assert pending[..i] == pending;
        SameVerdict(st.schema, st.concepts, [], pending, rel);
        assert [] + EffectsAll(st.schema, pending) == EffectsAll(st.schema, pending);
      }
    }
  }

  /** So it is accepted after the edges of the graph and those before it. */
  lemma DueInOrder(st: State, pending: seq<Relation>, i: nat)
    requires WellFormed(st) && RelationsDue(st, pending) && i < |pending|
    ensures LogRefusal(st.schema, st.concepts, Edges(st) + EffectsAll(st.schema, pending[..i]), pending[i]).None?
  {
    assert DueAt(st, pending, i);
    RefusalByLog(st, pending[i]);
    HasConcat(Edges(st), EffectsAll(st.schema, pending[..i]), pending[i].source, pending[i].target, pending[i].rtype);
  }

  /** Inverses materialised by a flush take ids above every pending one. */
  lemma AppliedLeavesFlushable(st: State, rel: Relation, other: Relation)
    requires Flushable(st, rel) && Flushable(st, other) && other.id != rel.id
    ensures Flushable(ApplyRelation(st, rel).0, other)
  {
  }

  lemma FlushLeavesPending(st: State, pending: seq<Relation>)
    requires RelationsPending(st, pending) && pending != []
    ensures RelationsPending(ApplyRelation(st, pending[0]).0, pending[1..])
  {
    var next := ApplyRelation(st, pending[0]).0;
    forall i | 0 <= i < |pending[1..]| ensures Flushable(next, pending[1..][i]) {
      AppliedLeavesFlushable(st, pending[0], pending[i + 1]);
    }
  }

  /** One step of a flush: what is applied and what is left together stay the
      edges that one-at-a-time insertion has reached. */
  lemma FlushStep(st: State, pending: seq<Relation>)
    requires WellFormed(st) && RelationsPending(st, pending) && pending != []
    ensures var (next, r) := ApplyRelation(st, pending[0]);
      && r.Ok? && WellFormed(next) && next.schema == st.schema && next.concepts == st.concepts
      && Edges(next) + EffectsAll(st.schema, pending[1..]) == Edges(st) + EffectsAll(st.schema, pending)
      && RelationsPending(next, pending[1..])
  {
    assert Flushable(st, pending[0]);
    AppliedLog(st, pending[0]);
    FlushLeavesPending(st, pending);
    EffectsFront(st.schema, pending);
    ConcatAssoc(Edges(st), Effects(st.schema, pending[0]), EffectsAll(st.schema, pending[1..]));
  }

  // ---------- limits ----------

  predicate OnePerSource(log: seq<Edge>, t: string) {
    forall i, j :: 0 <= i < j < |log| && log[i].rtype == t && log[j].rtype == t ==> log[i].source != log[j].source
  }

  predicate OnePerTarget(log: seq<Edge>, t: string) {
    forall i, j :: 0 <= i < j < |log| && log[i].rtype == t && log[j].rtype == t ==> log[i].target != log[j].target
  }

  /** What the cardinality of a type, and its being functional, say of its edges. */
  predicate LimitsRespected(schema: Schema, log: seq<Edge>, t: string)
    requires t in schema.relationTypes
  {
    var rt := schema.relationTypes[t];
    && (rt.functional ==> OnePerSource(log, t))
    && match rt.cardinality
       case OneToOne => OnePerSource(log, t) && OnePerTarget(log, t)
       case OneToMany => OnePerTarget(log, t)
       case ManyToOne => OnePerSource(log, t)
       case ManyToMany => true
  }

  lemma OneMorePerEnd(log: seq<Edge>, e: Edge)
    ensures OnePerSource(log + [e], e.rtype) <==> OnePerSource(log, e.rtype) && !LogHasOut(log, e.source, e.rtype)
    ensures OnePerTarget(log + [e], e.rtype) <==> OnePerTarget(log, e.rtype) && !LogHasIn(log, e.target, e.rtype)
  {
    var next := log + [e];
    assert next[|log|] == e && forall i :: 0 <= i < |log| ==> next[i] == log[i];
    if i :| 0 <= i < |log| && LeavesAs(log[i], e.source, e.rtype) { assert next[i].source == next[|log|].source; }
    if i :| 0 <= i < |log| && EntersAs(log[i], e.target, e.rtype) { assert next[i].target == next[|log|].target; }
    if OnePerSource(log, e.rtype) && !LogHasOut(log, e.source, e.rtype) {
      forall i, j | 0 <= i < j < |next| && next[i].rtype == e.rtype && next[j].rtype == e.rtype ensures next[i].source != next[j].source {
        if j == |log| { assert !LeavesAs(log[i], e.source, e.rtype); }
      }
    }
    if OnePerTarget(log, e.rtype) && !LogHasIn(log, e.target, e.rtype) {
      forall i, j | 0 <= i < j < |next| && next[i].rtype == e.rtype && next[j].rtype == e.rtype ensures next[i].target != next[j].target {
        if j == |log| { assert !EntersAs(log[i], e.target, e.rtype); }
      }
    }
    if OnePerSource(next, e.rtype) { assert OnePerSource(next[..|log|], e.rtype) && next[..|log|] == log; }
    if OnePerTarget(next, e.rtype) { assert OnePerTarget(next[..|log|], e.rtype) && next[..|log|] == log; }
  }

  /** Of the edges whose ends and type are right, exactly those are refused that
      would break what the type says; so none of a many-to-many type that is not
      functional. */
  lemma RefusedAtTheLimit(schema: Schema, concepts: map<nat, Concept>, log: seq<Edge>, rel: Relation)
    requires StaticRefusal(schema, concepts, rel).None?
    requires rel.rtype in schema.relationTypes && LimitsRespected(schema, log, rel.rtype)
    ensures LogRefusal(schema, concepts, log, rel).None? <==> LimitsRespected(schema, log + [EdgeOf(rel)], rel.rtype)
  {
    OneMorePerEnd(log, EdgeOf(rel));
  }

  /** Nothing speaks against the edge: its ends are live and of the right types,
      and no live edge of its type shares an end that the type lets occur once. */
  ghost predicate Permitted(st: State, rel: Relation) {
    && rel.source in st.concepts && rel.target in st.concepts && rel.rtype in st.schema.relationTypes
    && Inherits(st.schema, st.concepts[rel.source].ctype, st.schema.relationTypes[rel.rtype].domain)
    && Inherits(st.schema, st.concepts[rel.target].ctype, st.schema.relationTypes[rel.rtype].range)
    && rel.source <= 4294967295 && rel.target <= 4294967295
    && (st.schema.relationTypes[rel.rtype].functional ==> SourceFree(st, rel))
    && match st.schema.relationTypes[rel.rtype].cardinality
       case OneToOne => SourceFree(st, rel) && TargetFree(st, rel)
       case OneToMany => TargetFree(st, rel)
       case ManyToOne => SourceFree(st, rel)
       case ManyToMany => true
  }

  predicate SourceFree(st: State, rel: Relation) {
    forall id :: id in st.relations && st.relations[id].rtype == rel.rtype ==> st.relations[id].source != rel.source
  }

  predicate TargetFree(st: State, rel: Relation) {
    forall id :: id in st.relations && st.relations[id].rtype == rel.rtype ==> st.relations[id].target != rel.target
  }

  /** An edge is refused exactly when something speaks against it; a refusal for
      the sake of cardinality names the end that is taken. */
  lemma RefusedExactly(st: State, rel: Relation)
    ensures Refusal(st, rel).None? <==> Permitted(st, rel)
    ensures Refusal(st, rel).Some? && Refusal(st, rel).value.CardinalityViolation? ==>
      || (Refusal(st, rel).value == CardinalityViolation(rel.rtype, rel.source) && !SourceFree(st, rel))
      || (Refusal(st, rel).value == CardinalityViolation(rel.rtype, rel.target) && !TargetFree(st, rel))
  {
  }

  /** An accepted relation keeps the limits of every type that is not symmetric. */
  lemma AcceptedRespectsLimits(schema: Schema, concepts: map<nat, Concept>, log: seq<Edge>, rel: Relation, t: string)
    requires t in schema.relationTypes && !schema.relationTypes[t].symmetric
    requires LimitsRespected(schema, log, t) && LogRefusal(schema, concepts, log, rel).None?
    ensures LimitsRespected(schema, log + Effects(schema, rel), t)
  {
    var next := log + Effects(schema, rel);
    if rel.rtype == t {
      assert next == log + [EdgeOf(rel)];
      OneMorePerEnd(log, EdgeOf(rel));
    } else {
      assert forall i :: |log| <= i < |next| ==> next[i].rtype != t;
    }
  }

  // ---------- a batch of concepts ----------

  /** Everything `prepare_concept` checks of a concept that has its id. */
  ghost predicate Admissible(st: State, c: Concept) {
    && 0 < c.id <= MAX_CONCEPT_ID && SchemaAllows(st, c).Ok? && FreeFor(st, KeyOf(c), c.id)
    && (c.id in st.concepts ==> st.concepts[c.id].ctype == c.ctype)
  }

  function DisjointTypes(schema: Schema, t: string): seq<string> {
    if t in schema.conceptTypes then schema.conceptTypes[t].disjointWith else []
  }

  /** `check_pending_conflicts`: a later concept against an earlier one. */
  ghost predicate Compatible(schema: Schema, earlier: Concept, later: Concept) {
    && earlier.id != later.id && KeyOf(earlier) != KeyOf(later)
    && forall o :: o in DisjointTypes(schema, later.ctype) ==> (o, Lower(later.name)) != KeyOf(earlier)
  }

  ghost predicate ConceptsPending(st: State, batch: seq<Concept>) {
    && (forall i :: 0 <= i < |batch| ==> Admissible(st, batch[i]))
    && (forall i, j :: 0 <= i < j < |batch| ==> Compatible(st.schema, batch[i], batch[j]))
  }

  lemma PreparedAdmissible(st: State, c: Concept)
    requires WellFormed(st) && PrepareConcept(st, c).1.Ok?
    ensures var (st1, r) := PrepareConcept(st, c);
      && Admissible(st1, r.value) && r.value.id < st1.nextConcept && r.value == c.(id := r.value.id)
      && (c.id == 0 ==> r.value.id == st.nextConcept)
      && st1.concepts == st.concepts && st1.schema == st.schema && st1.nextConcept >= st.nextConcept
  {
    var (st1, r) := PrepareConcept(st, c);
    SameFinds(st, st1);
  }

  lemma SameFinds(a: State, b: State)
    requires a.concepts == b.concepts
    ensures forall k :: Find(a, k) == Find(b, k)
    ensures a.schema == b.schema ==> forall c :: SchemaAllows(a, c) == SchemaAllows(b, c)
  {
  }

  /** Only the watermark moved: nothing admitted is lost. */
  lemma WatermarkKeepsPending(a: State, b: State, batch: seq<Concept>)
    requires ConceptsPending(a, batch) && a.concepts == b.concepts && a.schema == b.schema
    ensures ConceptsPending(b, batch)
  {
    SameFinds(a, b);
    forall i | 0 <= i < |batch| ensures Admissible(b, batch[i]) { assert Admissible(a, batch[i]); }
  }

  /** Installing `c` adds at most its own key. */
  lemma InstalledFinds(st: State, c: Concept, key: NameKey)
    requires WellFormed(st) && c.id > 0 && FreeFor(st, KeyOf(c), c.id) && key != KeyOf(c)
    ensures Find(Installed(st, c), key).Some? ==> Find(Installed(st, c), key) == Find(st, key)
  {
    var next := Installed(st, c);
    if Find(next, key).Some? {
      var id := Find(next, key).value;
      assert NamedBy(next.concepts, key, id) && id != c.id;
      FindUnique(st, key, id);
    }
  }

  lemma AdmissibleAfter(st: State, c: Concept, later: Concept)
    requires WellFormed(st) && Admissible(st, c) && Admissible(st, later) && Compatible(st.schema, c, later)
    ensures Admissible(Installed(st, c), later)
  {
    var next := Installed(st, c);
    InstalledFinds(st, c, KeyOf(later));
    assert later.ctype in st.schema.conceptTypes;
    forall o | o in st.schema.conceptTypes[later.ctype].disjointWith ensures Find(next, (o, Lower(later.name))).None? {
      InstalledFinds(st, c, (o, Lower(later.name)));
    }
  }

  /** One step of applying, or of replaying, a batch. */
  lemma BatchStep(st: State, batch: seq<Concept>)
    requires WellFormed(st) && ConceptsPending(st, batch) && batch != []
    ensures ApplyConcept(st, batch[0]) == (Installed(st, batch[0]), Ok(batch[0].id))
    ensures UpsertConcept(st, batch[0]) == (Installed(st, batch[0]), Ok(batch[0].id))
    ensures WellFormed(Installed(st, batch[0])) && ConceptsPending(Installed(st, batch[0]), batch[1..])
  {
    var c := batch[0];
    assert Admissible(st, c);
    InstalledWellFormed(st, c);
    SameFinds(st, PrepareConcept(st, c).0);
    forall i | 0 <= i < |batch[1..]| ensures Admissible(Installed(st, c), batch[1..][i]) {
      assert batch[1..][i] == batch[i + 1];
      AdmissibleAfter(st, c, batch[i + 1]);
    }
    forall i, j | 0 <= i < j < |batch[1..]| ensures Compatible(st.schema, batch[1..][i], batch[1..][j]) {
      assert Compatible(st.schema, batch[i + 1], batch[j + 1]);
    }
  }

  /** Replaying journaled concepts one by one; `None` if one is refused. */
  ghost function Replay(st: State, batch: seq<Concept>): Option<State>
    decreases batch
  {
    if batch == [] then Some(st) else
    var (next, r) := UpsertConcept(st, batch[0]);
    if r.Ok? then Replay(next, batch[1..]) else None
  }

  ghost function ApplyBatch(st: State, batch: seq<Concept>): Option<State>
    decreases batch
  {
    if batch == [] then Some(st) else
    var (next, r) := ApplyConcept(st, batch[0]);
    if r.Ok? then ApplyBatch(next, batch[1..]) else None
  }

  /** Whatever prefix of an admitted batch became durable, replaying it on the
      graph as it was is accepted, and gives what applying it gives. */
  lemma {:induction false} DurablePrefixReplays(st: State, batch: seq<Concept>, k: nat)
    requires WellFormed(st) && ConceptsPending(st, batch) && k <= |batch|
    ensures Replay(st, batch[..k]).Some? && Replay(st, batch[..k]) == ApplyBatch(st, batch[..k])
    decreases k
  {
    if k > 0 {
      BatchStep(st, batch);
      assert batch[..k][1..] == batch[1..][..k - 1] && batch[..k][0] == batch[0];
      DurablePrefixReplays(Installed(st, batch[0]), batch[1..], k - 1);
    }
  }
}
