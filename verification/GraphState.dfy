/** The primary state of the graph (schema, concepts, relations and the id
    counters) and what every mutation does to it. Nothing here consults an
    index: names, degrees and incident edges are found by scanning the primary
    maps. The indexed engine is proved to do exactly this. */
module GraphState {
  import opened Collections
  import opened Text
  import opened Errors
  import opened OntologySchema

  datatype Value = Text(text: string) | Number(number: real) | Flag(flag: bool) | Items(items: seq<Value>)
  type Props = map<string, Value>

  /** Id 0 means "not allocated yet". */
  datatype Concept = Concept(id: nat, ctype: string, name: string, description: string, properties: Props)

  datatype Relation = Relation(id: nat, rtype: string, source: nat, target: nat, weight: int, properties: Props)

  /** `order` lists the live relation ids in the order they were inserted. */
  datatype State = State(
    schema: Schema, concepts: map<nat, Concept>, relations: map<nat, Relation>, order: seq<nat>,
    nextConcept: nat, nextRelation: nat)

  /** Largest concept id the storage format can represent. */
  const MAX_CONCEPT_ID := 0xFFFF_FFFF

  function Empty(schema: Schema): State {
    State(schema, map[], map[], [], 1, 1)
  }

  type NameKey = (string, string)

  function KeyOf(c: Concept): NameKey { (c.ctype, Lower(c.name)) }

  ghost predicate NamesUnique(concepts: map<nat, Concept>) {
    forall i, j :: i in concepts && j in concepts && KeyOf(concepts[i]) == KeyOf(concepts[j]) ==> i == j
  }

  ghost predicate ConceptsOk(concepts: map<nat, Concept>, next: nat) {
    forall id :: id in concepts ==> 0 < id < next && concepts[id].id == id
  }

  ghost predicate RelationsOk(relations: map<nat, Relation>, concepts: map<nat, Concept>, next: nat) {
    forall id :: id in relations ==>
      0 < id < next && relations[id].id == id && relations[id].source in concepts && relations[id].target in concepts
  }

  ghost predicate OrderOk(order: seq<nat>, relations: map<nat, Relation>) {
    NoDup(order) && forall id :: id in order <==> id in relations
  }

  /** Names injective per type, no dangling edge, ids below their watermark. */
  ghost predicate WellFormed(st: State) {
    && WellKeyed(st.schema)
    && ConceptsOk(st.concepts, st.nextConcept) && NamesUnique(st.concepts)
    && RelationsOk(st.relations, st.concepts, st.nextRelation) && OrderOk(st.order, st.relations)
    && st.nextConcept > 0 && st.nextRelation > 0
  }

  ghost predicate NamedBy(concepts: map<nat, Concept>, key: NameKey, id: nat) {
    id in concepts && KeyOf(concepts[id]) == key
  }

  ghost function FindIn(concepts: map<nat, Concept>, key: NameKey): Option<nat> {
    if id: nat :| NamedBy(concepts, key, id) then Some(id) else None
  }

  /** Name lookup as a scan of the concepts. */
  ghost function Find(st: State, key: NameKey): Option<nat> { FindIn(st.concepts, key) }

  function Raised(next: nat, id: nat): nat { if id >= next then id + 1 else next }

  // ---------- concepts ----------

  /** Contents against the schema: known type, properties, disjoint names. */
  ghost function SchemaAllows(st: State, c: Concept): Result<()> {
    if c.ctype !in st.schema.conceptTypes then Err(UnknownConceptType(c.ctype)) else
    var ct := st.schema.conceptTypes[c.ctype];
    if ct.properties.Some? && exists k :: k in c.properties && k !in ct.properties.value then Err(InvalidProperty(c.ctype))
    else if exists k :: k in ct.required && k !in c.properties then Err(MissingRequiredProperty(c.ctype))
    else if exists o :: o in ct.disjointWith && Find(st, (o, Lower(c.name))).Some? then Err(DisjointTypeViolation(c.ctype))
    else Ok(())
  }

  /** Validate a concept and give it an id; nothing is inserted. */
  ghost function PrepareConcept(st: State, c: Concept): (State, Result<Concept>) {
    var allowed := SchemaAllows(st, c);
    if allowed.Err? then (st, Err(allowed.error)) else
    var found := Find(st, KeyOf(c));
    if found.Some? && (c.id == 0 || found.value != c.id) then (st, Err(DuplicateConcept(c.name, c.ctype))) else
    if c.id == 0 then
      var id := st.nextConcept;
      (st.(nextConcept := id + 1), if id <= MAX_CONCEPT_ID then Ok(c.(id := id)) else Err(ConceptIdOutOfRange(id)))
    else if c.id in st.concepts && st.concepts[c.id].ctype != c.ctype then
      (st, Err(ImmutableConceptType(st.concepts[c.id].ctype, c.ctype)))
    else if c.id > MAX_CONCEPT_ID then (st, Err(ConceptIdOutOfRange(c.id)))
    else (st.(nextConcept := Raised(st.nextConcept, c.id)), Ok(c))
  }

  /** Insert or replace a prepared concept. */
  ghost function ApplyConcept(st: State, c: Concept): (State, Result<nat>) {
    if c.id == 0 then (st, Err(NotPrepared)) else
    var found := Find(st, KeyOf(c));
    if found.Some? && found.value != c.id then (st, Err(DuplicateConcept(c.name, c.ctype))) else
    if c.id in st.concepts && st.concepts[c.id].ctype != c.ctype then
      (st, Err(ImmutableConceptType(st.concepts[c.id].ctype, c.ctype)))
    else (Installed(st, c), Ok(c.id))
  }

  function Installed(st: State, c: Concept): State {
    st.(concepts := st.concepts[c.id := c], nextConcept := Raised(st.nextConcept, c.id))
  }

  ghost function UpsertConcept(st: State, c: Concept): (State, Result<nat>) {
    var (st1, r) := PrepareConcept(st, c);
    if r.Err? then (st1, Err(r.error)) else ApplyConcept(st1, r.value)
  }

  datatype ConceptPatch = ConceptPatch(name: Option<string>, description: Option<string>, properties: Option<Props>)

  function Patched(c: Concept, p: ConceptPatch): Concept {
    c.(name := if p.name.Some? then p.name.value else c.name,
       description := if p.description.Some? then p.description.value else c.description,
       properties := if p.properties.Some? then p.properties.value else c.properties)
  }

  ghost function PreviewUpdate(st: State, id: nat, p: ConceptPatch): Result<Concept> {
    if id !in st.concepts then Err(UnknownConcept(id)) else
    var c := Patched(st.concepts[id], p);
    var found := Find(st, KeyOf(c));
    if p.name.Some? && found.Some? && found.value != id then Err(DuplicateConcept(c.name, c.ctype)) else
    var allowed := SchemaAllows(st, c);
    if allowed.Err? then Err(allowed.error) else Ok(c)
  }

  ghost function ApplyUpdate(st: State, c: Concept): (State, Result<Concept>) {
    if c.id !in st.concepts then (st, Err(UnknownConcept(c.id))) else
    var prev := st.concepts[c.id];
    if prev.ctype != c.ctype then (st, Err(ImmutableConceptType(prev.ctype, c.ctype))) else
    var found := Find(st, KeyOf(c));
    if KeyOf(prev) != KeyOf(c) && found.Some? && found.value != c.id then (st, Err(DuplicateConcept(c.name, c.ctype)))
    else (Replaced(st, c), Ok(c))
  }

  function Replaced(st: State, c: Concept): State {
    st.(concepts := st.concepts[c.id := c])
  }

  ghost function UpdateConcept(st: State, id: nat, p: ConceptPatch): (State, Result<Concept>) {
    var r := PreviewUpdate(st, id, p);
    if r.Err? then (st, Err(r.error)) else ApplyUpdate(st, r.value)
  }

  predicate Incident(r: Relation, id: nat) { r.source == id || r.target == id }

  function IncidentSet(relations: map<nat, Relation>, id: nat): set<nat> {
    set r | r in relations && Incident(relations[r], id)
  }

  predicate NatLt(a: nat, b: nat) { a < b }

  /** The cascade of a removal, ascending. */
  ghost function IncidentIds(st: State, id: nat): seq<nat> {
    assert StrictOrder(NatLt);
    Ascending(NatLt, IncidentSet(st.relations, id))
  }

  ghost function RemoveConcept(st: State, id: nat): (State, Result<seq<nat>>) {
    if id !in st.concepts then (st, Err(UnknownConcept(id))) else
    var gone := IncidentSet(st.relations, id);
    (st.(concepts := st.concepts - {id}, relations := st.relations - gone, order := Minus(st.order, gone)),
     Ok(IncidentIds(st, id)))
  }

  // ---------- relations ----------

  ghost predicate HasOut(st: State, source: nat, rtype: string) {
    exists r :: r in st.relations && st.relations[r].source == source && st.relations[r].rtype == rtype
  }

  ghost predicate HasIn(st: State, target: nat, rtype: string) {
    exists r :: r in st.relations && st.relations[r].target == target && st.relations[r].rtype == rtype
  }

  /** Why an edge is refused; its id plays no part. */
  ghost function Refusal(st: State, rel: Relation): Option<GraphError> {
    if rel.source !in st.concepts then Some(UnknownConcept(rel.source)) else
    if rel.target !in st.concepts then Some(UnknownConcept(rel.target)) else
    if rel.rtype !in st.schema.relationTypes then Some(UnknownRelationType(rel.rtype)) else
    if !EdgeAllowed(st.schema, rel.rtype, st.concepts[rel.source].ctype, st.concepts[rel.target].ctype)
    then Some(SchemaViolation(rel.rtype)) else
    if rel.source > MAX_CONCEPT_ID then Some(ConceptIdOutOfRange(rel.source)) else
    if rel.target > MAX_CONCEPT_ID then Some(ConceptIdOutOfRange(rel.target)) else
    var rt := st.schema.relationTypes[rel.rtype];
    if rt.LimitsOut() && HasOut(st, rel.source, rel.rtype) then Some(CardinalityViolation(rel.rtype, rel.source)) else
    if rt.LimitsIn() && HasIn(st, rel.target, rel.rtype) then Some(CardinalityViolation(rel.rtype, rel.target)) else
    None
  }

  ghost function PrepareRelation(st: State, rel: Relation): (State, Result<Relation>) {
    var refusal := Refusal(st, rel);
    if refusal.Some? then (st, Err(refusal.value)) else
    if rel.id == 0 || rel.id in st.relations then
      (st.(nextRelation := st.nextRelation + 1), Ok(rel.(id := st.nextRelation)))
    else (st.(nextRelation := Raised(st.nextRelation, rel.id)), Ok(rel))
  }

  function Linked(st: State, rel: Relation): State {
    st.(relations := st.relations[rel.id := rel], order := st.order + [rel.id],
        nextRelation := Raised(st.nextRelation, rel.id))
  }

  function Inverse(rel: Relation, id: nat): Relation {
    rel.(id := id, source := rel.target, target := rel.source)
  }

  /** Insert a prepared relation; a symmetric type materialises its inverse. */
  function ApplyRelation(st: State, rel: Relation): (State, Result<nat>) {
    if rel.id == 0 then (st, Err(NotPrepared)) else
    if rel.rtype !in st.schema.relationTypes then (st, Err(UnknownRelationType(rel.rtype))) else
    var st1 := Linked(st, rel);
    (if st.schema.relationTypes[rel.rtype].symmetric && rel.source != rel.target
     then Linked(st1, Inverse(rel, st1.nextRelation)) else st1,
     Ok(rel.id))
  }

  ghost function AddRelation(st: State, rel: Relation): (State, Result<nat>) {
    var (st1, r) := PrepareRelation(st, rel);
    if r.Err? then (st1, Err(r.error)) else ApplyRelation(st1, r.value)
  }

  function InsertExact(st: State, rel: Relation): (State, Result<nat>) {
    if rel.id == 0 then (st, Err(NotPrepared)) else
    if rel.source !in st.concepts then (st, Err(UnknownConcept(rel.source))) else
    if rel.target !in st.concepts then (st, Err(UnknownConcept(rel.target))) else
    if rel.id in st.relations then (st, Err(RelationExists(rel.id))) else
    (Linked(st, rel), Ok(rel.id))
  }

  function RemoveRelation(st: State, id: nat): (State, Result<()>) {
    if id !in st.relations then (st, Err(UnknownRelation(id))) else
    (st.(relations := st.relations - {id}, order := Minus(st.order, {id})), Ok(()))
  }

  /** Which edges an adjacency list holds: those leaving or entering a node,
      of every type or of one. */
  datatype Sel = Sel(outgoing: bool, node: nat, rtype: Option<string>)

  predicate Matches(r: Relation, sel: Sel) {
    && (if sel.outgoing then r.source == sel.node else r.target == sel.node)
    && (sel.rtype.Some? ==> r.rtype == sel.rtype.value)
  }

  /** The selected live edges, oldest first. */
  function Select(relations: map<nat, Relation>, order: seq<nat>, sel: Sel): seq<nat> {
    if order == [] then [] else
    var l := |order| - 1;
    var rest := Select(relations, order[..l], sel);
    if order[l] in relations && Matches(relations[order[l]], sel) then rest + [order[l]] else rest
  }

  lemma {:induction false} SelectMembers(relations: map<nat, Relation>, order: seq<nat>, sel: Sel)
    ensures forall r :: r in Select(relations, order, sel) <==> r in order && r in relations && Matches(relations[r], sel)
  {
    if order != [] {
      var l := |order| - 1;
      SelectMembers(relations, order[..l], sel);
      assert order == order[..l] + [order[l]];
    }
  }

  /** `relation_between`: the oldest edge of that type between two nodes. */
  function Between(st: State, source: nat, target: nat, rtype: string): Option<nat> {
    FirstTo(st.relations, Select(st.relations, st.order, Sel(true, source, Some(rtype))), target)
  }

  function FirstTo(relations: map<nat, Relation>, ids: seq<nat>, target: nat): (r: Option<nat>)
    ensures r.Some? ==> r.value in ids && r.value in relations && relations[r.value].target == target
    ensures r.None? ==> forall i :: i in ids && i in relations ==> relations[i].target != target
  {
    if ids == [] then None else
    if ids[0] in relations && relations[ids[0]].target == target then Some(ids[0])
    else FirstTo(relations, ids[1..], target)
  }

  datatype RelationPatch = RelationPatch(weight: Option<int>, properties: Option<Props>)

  function PreviewRelationUpdate(st: State, id: nat, p: RelationPatch): Result<Relation> {
    if id !in st.relations then Err(UnknownRelation(id)) else
    var r := st.relations[id];
    Ok(r.(weight := if p.weight.Some? then p.weight.value else r.weight,
          properties := if p.properties.Some? then p.properties.value else r.properties))
  }

  function Reweighted(relations: map<nat, Relation>, id: nat, weight: int, properties: Props): map<nat, Relation>
    requires id in relations
  {
    relations[id := relations[id].(weight := weight, properties := properties)]
  }

  /** The materialised inverse of a symmetric edge. */
  function MirrorOf(st: State, rel: Relation): Option<nat> {
    if !(rel.rtype in st.schema.relationTypes && st.schema.relationTypes[rel.rtype].symmetric) || rel.source == rel.target then None
    else
      var inverse := Between(st, rel.target, rel.source, rel.rtype);
      if inverse.Some? && inverse.value != rel.id then inverse else None
  }

  /** Replace weight and properties; the inverse of a symmetric edge follows. */
  function ApplyRelationUpdate(st: State, updated: Relation): (State, Result<Relation>) {
    if updated.id !in st.relations then (st, Err(UnknownRelation(updated.id))) else
    var st1 := WithWeight(st, updated.id, updated.weight, updated.properties);
    var snapshot := st1.relations[updated.id];
    var mirror := MirrorOf(st1, snapshot);
    (if mirror.Some? then WithWeight(st1, mirror.value, updated.weight, updated.properties) else st1, Ok(snapshot))
  }

  function WithWeight(st: State, id: nat, weight: int, properties: Props): State
    requires id in st.relations
  {
    st.(relations := Reweighted(st.relations, id, weight, properties))
  }

  function UpdateRelation(st: State, id: nat, p: RelationPatch): (State, Result<Relation>) {
    var r := PreviewRelationUpdate(st, id, p);
    if r.Err? then (st, Err(r.error)) else ApplyRelationUpdate(st, r.value)
  }

  // ---------- the schema ----------

  ghost predicate TypeKept(st: State, candidate: Schema, t: string) {
    (exists id :: id in st.concepts && st.concepts[id].ctype == t) ==>
      t in candidate.conceptTypes && NsOf(candidate, t) == NsOf(st.schema, t)
  }

  ghost predicate RelationTypeKept(st: State, candidate: Schema, t: string)
    requires t in st.schema.relationTypes
  {
    (exists id :: id in st.relations && st.relations[id].rtype == t) ==>
      && t in candidate.relationTypes
      && candidate.relationTypes[t].domain == st.schema.relationTypes[t].domain
      && candidate.relationTypes[t].range == st.schema.relationTypes[t].range
  }

  /** `validate_candidate`: what has instances neither moves, changes shape
      nor disappears. */
  ghost predicate AcceptsSchema(st: State, candidate: Schema) {
    && Acyclic(candidate) && NamespacesOk(candidate)
    && (forall t :: t in st.schema.conceptTypes ==> TypeKept(st, candidate, t))
    && (forall t :: t in st.schema.relationTypes ==> RelationTypeKept(st, candidate, t))
  }

  ghost function ExtendOntology(st: State, candidate: Schema): State {
    if AcceptsSchema(st, candidate) then st.(schema := candidate) else st
  }

  // ---------- typed neighbourhoods ----------

  function Fetch(relations: map<nat, Relation>, ids: seq<nat>): seq<Relation>
    requires forall id :: id in ids ==> id in relations
  {
    seq(|ids|, i requires 0 <= i < |ids| => relations[ids[i]])
  }

  /** A real edge seen as an edge of the type that declares it its inverse. */
  function Virtual(r: Relation, rtype: string): Relation {
    r.(rtype := rtype, source := r.target, target := r.source)
  }

  function AsVirtual(rels: seq<Relation>, rtype: string): seq<Relation> {
    seq(|rels|, i requires 0 <= i < |rels| => Virtual(rels[i], rtype))
  }

  function InverseName(schema: Schema, rtype: string): Option<string> {
    if rtype in schema.relationTypes then schema.relationTypes[rtype].inverseOf else None
  }

  function Chosen(st: State, sel: Sel): seq<Relation> {
    SelectMembers(st.relations, st.order, sel);
    Fetch(st.relations, Select(st.relations, st.order, sel))
  }

  /** The edges of type `t` leaving (or entering) a node, then the edges of its
      inverse type read backwards. */
  function TypedEdges(st: State, outgoing: bool, node: nat, t: string): seq<Relation> {
    var direct := Chosen(st, Sel(outgoing, node, Some(t)));
    match InverseName(st.schema, t)
    case None => direct
    case Some(inv) => direct + AsVirtual(Chosen(st, Sel(!outgoing, node, Some(inv))), t)
  }

  /** `other` is what type `t` is declared the inverse of. */
  predicate IsInverse(schema: Schema, t: string, other: string) {
    t in schema.relationTypes && schema.relationTypes[t].inverseOf == Some(other)
  }

  /** Live edge `id` appears as `r` on the asked side of the node: as it is,
      when its type is `t`, or turned round and renamed, when `t` is declared
      the inverse of its type. */
  predicate AppearsAs(st: State, outgoing: bool, node: nat, t: string, id: nat, r: Relation) {
    && id in st.relations
    && var e := st.relations[id];
      || (e.rtype == t && (if outgoing then e.source else e.target) == node && r == e)
      || (IsInverse(st.schema, t, e.rtype) && (if outgoing then e.target else e.source) == node
          && r == Relation(e.id, t, e.target, e.source, e.weight, e.properties))
  }

  lemma ChosenExactly(st: State, sel: Sel, r: Relation)
    requires WellFormed(st)
    ensures r in Chosen(st, sel) <==> exists id :: id in st.relations && st.relations[id] == r && Matches(r, sel)
  {
    var ids := Select(st.relations, st.order, sel);
    SelectMembers(st.relations, st.order, sel);
    if id :| id in st.relations && st.relations[id] == r && Matches(r, sel) {
      var i :| 0 <= i < |ids| && ids[i] == id;
      assert Chosen(st, sel)[i] == r;
    }
    if r in Chosen(st, sel) {
      var i :| 0 <= i < |ids| && Chosen(st, sel)[i] == r;
      assert ids[i] in ids;
    }
  }

  lemma VirtualMembers(rels: seq<Relation>, t: string, r: Relation)
    ensures r in AsVirtual(rels, t) <==> exists e :: e in rels && r == Relation(e.id, t, e.target, e.source, e.weight, e.properties)
  {
    if e :| e in rels && r == Relation(e.id, t, e.target, e.source, e.weight, e.properties) {
      var i :| 0 <= i < |rels| && rels[i] == e;
      assert AsVirtual(rels, t)[i] == r;
    }
    if r in AsVirtual(rels, t) {
      var i :| 0 <= i < |rels| && AsVirtual(rels, t)[i] == r;
      assert rels[i] in rels;
    }
  }

  predicate TurnsInto(st: State, outgoing: bool, node: nat, t: string, other: string, id: nat, r: Relation) {
    && id in st.relations
    && var e := st.relations[id];
       e.rtype == other && (if outgoing then e.target else e.source) == node
       && r == Relation(e.id, t, e.target, e.source, e.weight, e.properties)
  }

  lemma TurnedExactly(st: State, outgoing: bool, node: nat, t: string, other: string, r: Relation)
    requires WellFormed(st)
    ensures r in AsVirtual(Chosen(st, Sel(!outgoing, node, Some(other))), t) <==>
      exists id :: TurnsInto(st, outgoing, node, t, other, id, r)
  {
    hide WellFormed, Chosen, AsVirtual;
    var sel := Sel(!outgoing, node, Some(other));
    VirtualMembers(Chosen(st, sel), t, r);
    if e :| e in Chosen(st, sel) && r == Relation(e.id, t, e.target, e.source, e.weight, e.properties) {
      ChosenExactly(st, sel, e);
      var id :| id in st.relations && st.relations[id] == e && Matches(e, sel);
      assert TurnsInto(st, outgoing, node, t, other, id, r);
    }
    if id :| TurnsInto(st, outgoing, node, t, other, id, r) { ChosenExactly(st, sel, st.relations[id]); }
  }

  /** The typed edges of a node are exactly the live edges that appear there. */
  lemma TypedEdgesExactly(st: State, outgoing: bool, node: nat, t: string, r: Relation)
    requires WellFormed(st)
    ensures r in TypedEdges(st, outgoing, node, t) <==> exists id :: AppearsAs(st, outgoing, node, t, id, r)
  {
    hide WellFormed, Chosen, AsVirtual;
    ChosenExactly(st, Sel(outgoing, node, Some(t)), r);
    var inverse := InverseName(st.schema, t);
    if inverse.Some? {
      TurnedExactly(st, outgoing, node, t, inverse.value, r);
      if id :| TurnsInto(st, outgoing, node, t, inverse.value, id, r) { assert AppearsAs(st, outgoing, node, t, id, r); }
    }
    if id :| id in st.relations && st.relations[id] == r && Matches(r, Sel(outgoing, node, Some(t))) {
      assert AppearsAs(st, outgoing, node, t, id, r);
    }
    if id :| AppearsAs(st, outgoing, node, t, id, r) {
      if inverse.Some? { assert TurnsInto(st, outgoing, node, t, inverse.value, id, r) || st.relations[id] == r; }
    }
  }

  lemma {:induction false} AllTypedEdgesExactly(st: State, outgoing: bool, node: nat, types: seq<string>, r: Relation)
    requires WellFormed(st)
    ensures r in AllTypedEdges(st, outgoing, node, types) <==> exists id, t :: t in types && AppearsAs(st, outgoing, node, t, id, r)
  {
    if types != [] {
      var l := |types| - 1;
      assert types == types[..l] + [types[l]];
      AllTypedEdgesExactly(st, outgoing, node, types[..l], r);
      TypedEdgesExactly(st, outgoing, node, types[l], r);
    }
  }

  function AllTypedEdges(st: State, outgoing: bool, node: nat, types: seq<string>): seq<Relation> {
    if types == [] then [] else
    AllTypedEdges(st, outgoing, node, types[..|types| - 1]) + TypedEdges(st, outgoing, node, types[|types| - 1])
  }
}
