/** Why a second upsert of the same source finds nothing to do: what each
    record has said stays said while the others are taken. */
module Idempotence {
  import opened Text
  import opened OntologySchema
  import opened GraphState
  import opened StateLaws
  import opened BatchLaws
  import opened IngestState
  import opened UpsertLaws
  import opened AbsorbLaws
  import opened Ingest

  // ---------- the sources it holds for ----------

  /** A concept without an id, a named relation, a concept type that names no
      disjoint type, a relation type. */
  predicate Plain(rec: Record) {
    || (rec.ConceptRecord? && rec.concept.id == 0)
    || rec.NamedRelation?
    || (rec.ConceptTypeDecl? && rec.decl.disjointWith == [])
    || rec.RelationTypeDecl?
  }

  function NamedEnds(rec: Record): (NameKey, NameKey)
    requires rec.NamedRelation?
  {
    ((rec.sourceType, Lower(rec.sourceName)), (rec.targetType, Lower(rec.targetName)))
  }

  /** Two records about different things; for a symmetric type a relation is
      the same either way round. */
  predicate Apart(symmetric: map<string, bool>, a: Record, b: Record) {
    && (a.ConceptRecord? && b.ConceptRecord? ==> KeyOf(a.concept) != KeyOf(b.concept))
    && (a.NamedRelation? && b.NamedRelation? && a.rtype == b.rtype ==>
          NamedEnds(a) != NamedEnds(b) && (Mirrors(symmetric, a.rtype) ==> NamedEnds(a) != (NamedEnds(b).1, NamedEnds(b).0)))
    && (a.ConceptTypeDecl? && b.ConceptTypeDecl? ==> a.decl.name != b.decl.name)
    && (a.RelationTypeDecl? && b.RelationTypeDecl? ==> a.relationType.name != b.relationType.name)
  }

  predicate Mirrors(symmetric: map<string, bool>, rtype: string) { rtype in symmetric && symmetric[rtype] }

  /** Only types that the source has as symmetric are symmetric. */
  predicate SymmetryWithin(schema: Schema, symmetric: map<string, bool>) {
    forall t :: t in schema.relationTypes && t in symmetric && schema.relationTypes[t].symmetric ==> symmetric[t]
  }

  /** A relation has a type that is listed as symmetric or not, and declarations
      agree with the list; so none of them stops a type from being symmetric. */
  predicate Regular(symmetric: map<string, bool>, rec: Record) {
    && (rec.NamedRelation? ==> rec.rtype in symmetric)
    && (rec.RelationTypeDecl? && rec.relationType.name in symmetric ==>
          (rec.relationType.symmetric <==> symmetric[rec.relationType.name]))
  }

  predicate Repeatable(symmetric: map<string, bool>, records: seq<Record>) {
    && (forall i :: 0 <= i < |records| ==> Plain(records[i]))
    && (forall i :: 0 <= i < |records| ==> Regular(symmetric, records[i]))
    && (forall i, j :: 0 <= i < |records| && 0 <= j < |records| && i != j ==> Apart(symmetric, records[i], records[j]))
  }

  // ---------- what a record has said ----------

  ghost predicate NamedSaid(st: State, s: Session, rec: Record, link: EdgeEnds)
    requires rec.NamedRelation?
  {
    && rec.rtype in st.schema.relationTypes && Binds(ConceptView(st, s), rec, link)
    && LinkSays(LinksOf(st, s), link, rec.weight, rec.properties)
  }

  /** Once everything pending is applied, the record has nothing to add. */
  ghost predicate Said(opts: Options, st: State, s: Session, rec: Record) {
    match rec
    case ConceptRecord(c) => ConceptAbsorbed(opts, ConceptView(st, s), c)
    case NamedRelation(_, _, _, _, _, _, _) => exists link :: NamedSaid(st, s, rec, link)
    case ConceptTypeDecl(decl) => DeclChangesNothing(st.schema, decl)
    case RelationTypeDecl(rt) => EndsKnown(st.schema, rt) && TypeAbsorbed(st.schema, rt)
    case _ => false
  }

  /** A record that changes nothing of a settled graph. */
  ghost predicate Absorbed(opts: Options, st: State, rec: Record) {
    match rec
    case ConceptRecord(c) => ConceptAbsorbed(opts, st.concepts, c)
    case NamedRelation(_, _, _, _, _, _, _) => RelationAbsorbed(st, rec)
    case ConceptTypeDecl(decl) => DeclChangesNothing(st.schema, decl)
    case RelationTypeDecl(rt) => TypeAbsorbed(st.schema, rt)
    case _ => false
  }

  lemma SaidIsAbsorbed(opts: Options, st: State, s: Session, rec: Record)
    requires WellFormed(st) && NothingPending(s) && Said(opts, st, s, rec)
    ensures Absorbed(opts, st, rec)
  {
    assert ConceptView(st, s) == st.concepts;
    if rec.NamedRelation? {
      var link :| NamedSaid(st, s, rec, link);
      FindUnique(st, (rec.sourceType, Lower(rec.sourceName)), link.1);
      FindUnique(st, (rec.targetType, Lower(rec.targetName)), link.2);
      assert LinksOf(st, s) == LinksOf(st, NEW_SESSION);
    }
  }

  // ---------- what taking a record does ----------

  ghost predicate TookConcept(opts: Options, a: State, s: Session, b: State, t: Session, c: Concept, id: nat) {
    && UpsertedInto(opts, ConceptView(a, s), ConceptView(b, t), c, id)
  }

  ghost predicate TookNamed(a: State, s: Session, b: State, t: Session, rec: Record, link: EdgeEnds)
    requires rec.NamedRelation?
  {
    && (NamesSettled(a, s) ==> Binds(ConceptView(b, t), rec, link))
    && (Fresh(LinksOf(a, s), link) ==> PutLink(a, s, b, t, link, rec.weight, rec.properties))
  }

  /** The move of the ingester on one plain record, applied or put off. */
  ghost predicate Took(opts: Options, a: State, s: Session, b: State, t: Session, rec: Record, applied: bool) {
    match rec
    case ConceptRecord(c) =>
      applied && b.schema == a.schema
      && (NamesSettled(a, s) ==> Keeps(a, s, b, t) && exists id :: TookConcept(opts, a, s, b, t, c, id))
    case NamedRelation(_, _, _, _, _, _, _) =>
      b.schema == a.schema && ConceptView(b, t) == ConceptView(a, s)
      && if applied then exists link :: TookNamed(a, s, b, t, rec, link) else Keeps(a, s, b, t)
    case ConceptTypeDecl(decl) =>
      applied && ConceptView(b, t) == ConceptView(a, s) && Keeps(a, s, b, t) && b.schema == MergedSchema(a.schema, decl)
    case RelationTypeDecl(rt) =>
      ConceptView(b, t) == ConceptView(a, s) && Keeps(a, s, b, t)
      && if applied then EndsKnown(a.schema, rt) && b.schema == Declared(a.schema, rt)
         else !EndsKnown(a.schema, rt) && b.schema == a.schema
    case _ => true
  }

  // ---------- what was said stays said ----------

  lemma UpsertKeepsNames(opts: Options, before: map<nat, Concept>, after: map<nat, Concept>, c: Concept, id: nat, key: NameKey, k: nat)
    requires c.id == 0 && UpsertedInto(opts, before, after, c, id) && NamedBy(before, key, k)
    ensures NamedBy(after, key, k) && (key != KeyOf(c) ==> after[k] == before[k])
  {
  }

  lemma UpsertSays(opts: Options, before: map<nat, Concept>, after: map<nat, Concept>, c: Concept, id: nat)
    requires c.id == 0 && UpsertedInto(opts, before, after, c, id)
    ensures ConceptAbsorbed(opts, after, c)
  {
    if id in before {
      RefreshedTwice(opts, before[id], c, id);
    } else {
      RefreshedTwice(opts, c, c, id);
    }
    assert NamedBy(after, KeyOf(c), id) && after[id].id == id;
  }

  lemma ConceptStays(opts: Options, before: map<nat, Concept>, after: map<nat, Concept>, c: Concept, id: nat, other: Concept)
    requires c.id == 0 && UpsertedInto(opts, before, after, c, id)
    requires ConceptAbsorbed(opts, before, other) && KeyOf(c) != KeyOf(other)
    ensures ConceptAbsorbed(opts, after, other)
  {
    var k :| NamedBy(before, KeyOf(other), k) && before[k].id == k && AlreadySaid(opts, before[k], other);
    UpsertKeepsNames(opts, before, after, c, id, KeyOf(other), k);
  }

  lemma BindsStays(opts: Options, a: State, s: Session, b: State, t: Session, c: Concept, id: nat, rec: Record, link: EdgeEnds)
    requires c.id == 0 && TookConcept(opts, a, s, b, t, c, id) && rec.NamedRelation? && Binds(ConceptView(a, s), rec, link)
    ensures Binds(ConceptView(b, t), rec, link)
  {
    UpsertKeepsNames(opts, ConceptView(a, s), ConceptView(b, t), c, id, NamedEnds(rec).0, link.1);
    UpsertKeepsNames(opts, ConceptView(a, s), ConceptView(b, t), c, id, NamedEnds(rec).1, link.2);
  }

  lemma SaysKept(a: State, s: Session, b: State, t: Session, link: EdgeEnds, weight: int, properties: Props)
    requires AspectKept(a, s, b, t, OfLink(link)) && SymmetryGrows(a.schema, b.schema, link.0)
    requires LinkSays(LinksOf(a, s), link, weight, properties)
    ensures LinkSays(LinksOf(b, t), link, weight, properties)
  {
    hide LinkSays, Fresh, Absent;
  }

  lemma SymmetryKept(opts: Options, symmetric: map<string, bool>, a: State, s: Session, b: State, t: Session, rec: Record, applied: bool, rtype: string)
    requires Plain(rec) && Took(opts, a, s, b, t, rec, applied) && SymmetryWithin(a.schema, symmetric) && Regular(symmetric, rec)
    requires rtype in a.schema.relationTypes && rtype in symmetric
    ensures SymmetryGrows(a.schema, b.schema, rtype)
  {
    hide LinkSays, Fresh, Keeps, PutLink, NamesSettled, Binds;
    if rec.ConceptTypeDecl? { MergedKeeps(a.schema, rec.decl); }
  }

  /** Links of records about different things are different links. */
  lemma ApartLinks(symmetric: map<string, bool>, view: map<nat, Concept>, rec: Record, link: EdgeEnds, other: Record, l: EdgeEnds)
    requires rec.NamedRelation? && other.NamedRelation? && Apart(symmetric, rec, other)
    requires Binds(view, rec, link) && Binds(view, other, l)
    ensures !SameLink(Mirrors(symmetric, link.0), l, link)
  {
  }

  lemma DeclStays(s: Schema, decl: ConceptType, other: ConceptType)
    requires DeclChangesNothing(s, other) && decl.name != other.name && other.disjointWith == []
    ensures DeclChangesNothing(MergedSchema(s, decl), other)
  {
  }

  lemma DeclSays(s: Schema, decl: ConceptType)
    requires decl.disjointWith == []
    ensures DeclChangesNothing(MergedSchema(s, decl), decl)
  {
    if !DeclChangesNothing(s, decl) { RepeatedDeclaration(s, decl); }
  }

  lemma MergedKeeps(s: Schema, decl: ConceptType)
    ensures MergedSchema(s, decl).relationTypes == s.relationTypes
    ensures s.conceptTypes.Keys <= MergedSchema(s, decl).conceptTypes.Keys
  {
  }

  lemma NamedStays(opts: Options, symmetric: map<string, bool>, a: State, s: Session, b: State, t: Session, rec: Record, applied: bool,
                   other: Record, l: EdgeEnds)
    requires Plain(rec) && Took(opts, a, s, b, t, rec, applied) && NamesSettled(a, s) && Apart(symmetric, rec, other)
    requires SymmetryWithin(a.schema, symmetric) && SymmetryWithin(b.schema, symmetric) && Regular(symmetric, rec) && Regular(symmetric, other)
    requires rec.NamedRelation? && applied ==> forall link :: Binds(ConceptView(a, s), rec, link) ==> Fresh(LinksOf(a, s), link)
    requires other.NamedRelation? && NamedSaid(a, s, other, l)
    ensures NamedSaid(b, t, other, l)
  {
    hide LinkSays, Fresh, Keeps, UpsertedInto;
    assert AspectKept(a, s, b, t, OfLink(l)) && Binds(ConceptView(b, t), other, l) && other.rtype in b.schema.relationTypes by {
      match rec
      case ConceptRecord(c) =>
        var id :| TookConcept(opts, a, s, b, t, c, id);
        BindsStays(opts, a, s, b, t, c, id, other, l);
        KeptAspect(a, s, b, t, OfLink(l));
      case NamedRelation(_, _, _, _, _, _, _) =>
        if applied {
          var link :| TookNamed(a, s, b, t, rec, link);
          ApartLinks(symmetric, ConceptView(b, t), rec, link, other, l);
          PutElsewhere(symmetric, a, s, b, t, link, rec.weight, rec.properties, l);
        } else {
          KeptAspect(a, s, b, t, OfLink(l));
        }
      case ConceptTypeDecl(decl) =>
        MergedKeeps(a.schema, decl);
        KeptAspect(a, s, b, t, OfLink(l));
      case RelationTypeDecl(_) =>
        KeptAspect(a, s, b, t, OfLink(l));
    }
    SymmetryKept(opts, symmetric, a, s, b, t, rec, applied, other.rtype);
    SaysKept(a, s, b, t, l, other.weight, other.properties);
  }

  lemma KeptAspect(a: State, s: Session, b: State, t: Session, x: Aspect)
    requires Keeps(a, s, b, t)
    ensures AspectKept(a, s, b, t, x)
  {
  }

  lemma PutElsewhere(symmetric: map<string, bool>, a: State, s: Session, b: State, t: Session, link: EdgeEnds, weight: int, properties: Props, l: EdgeEnds)
    requires PutLink(a, s, b, t, link, weight, properties) && SymmetryWithin(a.schema, symmetric) && link.0 in symmetric
    requires !SameLink(Mirrors(symmetric, link.0), l, link)
    ensures AspectKept(a, s, b, t, OfLink(l))
  {
    assert Elsewhere(a.schema, link, OfLink(l));
  }

  /** Whatever another record said is still said. */
  lemma OtherStays(opts: Options, symmetric: map<string, bool>, a: State, s: Session, b: State, t: Session, rec: Record, applied: bool, other: Record)
    requires Plain(rec) && Plain(other) && Took(opts, a, s, b, t, rec, applied) && NamesSettled(a, s) && Apart(symmetric, rec, other)
    requires SymmetryWithin(a.schema, symmetric) && SymmetryWithin(b.schema, symmetric) && Regular(symmetric, rec) && Regular(symmetric, other)
    requires rec.NamedRelation? && applied ==> forall link :: Binds(ConceptView(a, s), rec, link) ==> Fresh(LinksOf(a, s), link)
    requires Said(opts, a, s, other)
    ensures Said(opts, b, t, other)
  {
    hide LinkSays, Fresh, Keeps, PutLink, UpsertedInto, ConceptAbsorbed;
    match other
    case NamedRelation(_, _, _, _, _, _, _) =>
      var l :| NamedSaid(a, s, other, l);
      NamedStays(opts, symmetric, a, s, b, t, rec, applied, other, l);
    case ConceptRecord(c) =>
      if rec.ConceptRecord? {
        var id :| TookConcept(opts, a, s, b, t, rec.concept, id);
        ConceptStays(opts, ConceptView(a, s), ConceptView(b, t), rec.concept, id, c);
      }
    case ConceptTypeDecl(decl) =>
      if rec.ConceptTypeDecl? { DeclStays(a.schema, rec.decl, decl); }
    case RelationTypeDecl(rt) =>
      if rec.ConceptTypeDecl? { MergedKeeps(a.schema, rec.decl); }
  }

  lemma SaysDeclared(st: State, log: seq<LogRecord>, s: Session, link: EdgeEnds, weight: int, properties: Props)
    requires SessionOk(st, log, s) && LinkSays(LinksOf(st, s), link, weight, properties)
    ensures link.0 in st.schema.relationTypes
  {
    var l := LinksOf(st, s);
    if AppliedLink(l, link).None? {
      var i: nat :| OnlyAt(l.adding, IsSymmetric(l.schema, link.0), link, i) && Says(l.adding[i], weight, properties);
      assert Flushable(st, s.pendingRelations[i]);
    }
  }

  /** A record that was applied has said what it had to say. */
  lemma NowSaid(opts: Options, a: State, s: Session, b: State, t: Session, log: seq<LogRecord>, rec: Record)
    requires Plain(rec) && Took(opts, a, s, b, t, rec, true) && NamesSettled(a, s) && SessionOk(b, log, t)
    requires rec.NamedRelation? ==> forall link :: Binds(ConceptView(a, s), rec, link) ==> Fresh(LinksOf(a, s), link)
    ensures Said(opts, b, t, rec)
  {
    hide LinkSays, Fresh, Keeps, KeepsBut, UpsertedInto, SessionOk, ConceptAbsorbed;
    match rec
    case ConceptRecord(c) =>
      var id :| TookConcept(opts, a, s, b, t, c, id);
      UpsertSays(opts, ConceptView(a, s), ConceptView(b, t), c, id);
    case NamedRelation(_, _, _, _, _, _, _) =>
      var link :| TookNamed(a, s, b, t, rec, link);
      SaysDeclared(b, log, t, link, rec.weight, rec.properties);
      assert NamedSaid(b, t, rec, link);
    case ConceptTypeDecl(decl) => DeclSays(a.schema, decl);
    case RelationTypeDecl(_) =>
  }

  // ---------- along a run ----------

  /** A named relation among the records is about this link. */
  ghost predicate Claims(symmetric: map<string, bool>, view: map<nat, Concept>, rec: Record, link: EdgeEnds) {
    rec.NamedRelation? && exists l :: Binds(view, rec, l) && SameLink(Mirrors(symmetric, link.0), l, link)
  }

  ghost predicate Unclaimed(symmetric: map<string, bool>, view: map<nat, Concept>, records: seq<Record>, taken: set<nat>, link: EdgeEnds) {
    forall k :: k in taken && k < |records| ==> !Claims(symmetric, view, records[k], link)
  }

  ghost predicate AllSaid(opts: Options, st: State, s: Session, records: seq<Record>, taken: set<nat>) {
    forall k :: k in taken ==> k < |records| && Said(opts, st, s, records[k])
  }

  ghost predicate FreshElsewhere(symmetric: map<string, bool>, st: State, s: Session, records: seq<Record>, taken: set<nat>) {
    forall link :: Unclaimed(symmetric, ConceptView(st, s), records, taken, link) ==> Fresh(LinksOf(st, s), link)
  }

  /** The records `taken` were applied, and nothing else. */
  ghost predicate Going(opts: Options, symmetric: map<string, bool>, st: State, s: Session, records: seq<Record>, taken: set<nat>) {
    && NamesSettled(st, s) && SymmetryWithin(st.schema, symmetric)
    && AllSaid(opts, st, s, records, taken) && FreshElsewhere(symmetric, st, s, records, taken)
  }

  lemma FreshNext(symmetric: map<string, bool>, st: State, s: Session, records: seq<Record>, taken: set<nat>, i: nat)
    requires FreshElsewhere(symmetric, st, s, records, taken) && Repeatable(symmetric, records) && i < |records| && i !in taken
    requires records[i].NamedRelation?
    ensures forall link :: Binds(ConceptView(st, s), records[i], link) ==> Fresh(LinksOf(st, s), link)
  {
    hide Fresh;
    forall link | Binds(ConceptView(st, s), records[i], link) ensures Fresh(LinksOf(st, s), link) {
      forall k | k in taken && k < |records| ensures !Claims(symmetric, ConceptView(st, s), records[k], link) {
        forall l | records[k].NamedRelation? && Binds(ConceptView(st, s), records[k], l) ensures !SameLink(Mirrors(symmetric, link.0), l, link) {
          assert Apart(symmetric, records[i], records[k]);
          ApartLinks(symmetric, ConceptView(st, s), records[i], link, records[k], l);
        }
      }
      assert Unclaimed(symmetric, ConceptView(st, s), records, taken, link);
    }
  }

  /** A concept of the view keeps its name while a plain record is taken. */
  lemma BindsAcross(opts: Options, a: State, s: Session, b: State, t: Session, rec: Record, applied: bool, other: Record, l: EdgeEnds)
    requires Plain(rec) && Took(opts, a, s, b, t, rec, applied) && NamesSettled(a, s)
    requires other.NamedRelation? && Binds(ConceptView(a, s), other, l)
    ensures Binds(ConceptView(b, t), other, l)
  {
    hide Keeps, PutLink, UpsertedInto, Fresh;
    if rec.ConceptRecord? {
      var id :| TookConcept(opts, a, s, b, t, rec.concept, id);
      BindsStays(opts, a, s, b, t, rec.concept, id, other, l);
    }
  }

  lemma FreshAcross(symmetric: map<string, bool>, a: State, s: Session, b: State, t: Session, rec: Record, taken: EdgeEnds, link: EdgeEnds)
    requires rec.NamedRelation? && PutLink(a, s, b, t, taken, rec.weight, rec.properties) && SymmetryWithin(a.schema, symmetric)
    requires Regular(symmetric, rec)
    requires Binds(ConceptView(b, t), rec, taken) && !Claims(symmetric, ConceptView(b, t), rec, link) && Fresh(LinksOf(a, s), link)
    ensures Fresh(LinksOf(b, t), link)
  {
    hide LinkSays, Fresh, Absent;
    assert !SameLink(Mirrors(symmetric, link.0), taken, link);
    LinkTurned(Mirrors(symmetric, link.0), taken, link);
    assert Elsewhere(a.schema, taken, OfLink(link));
    assert AspectKept(a, s, b, t, OfLink(link));
  }

  /** What no record taken so far is about stays fresh. */
  lemma FreshOn(opts: Options, symmetric: map<string, bool>, a: State, s: Session, b: State, t: Session, records: seq<Record>, taken: set<nat>,
                i: nat, applied: bool, link: EdgeEnds)
    requires Repeatable(symmetric, records) && i < |records| && Took(opts, a, s, b, t, records[i], applied)
    requires NamesSettled(a, s) && SymmetryWithin(a.schema, symmetric) && FreshElsewhere(symmetric, a, s, records, taken)
    requires records[i].NamedRelation? && applied ==> forall l :: Binds(ConceptView(a, s), records[i], l) ==> Fresh(LinksOf(a, s), l)
    requires Unclaimed(symmetric, ConceptView(b, t), records, if applied then taken + {i} else taken, link)
    ensures Fresh(LinksOf(b, t), link)
  {
    hide LinkSays, Fresh, Keeps, PutLink, Binds;
    var rec := records[i];
    forall k | k in taken && k < |records| ensures !Claims(symmetric, ConceptView(a, s), records[k], link) {
      assert !Claims(symmetric, ConceptView(b, t), records[k], link);
      forall l | records[k].NamedRelation? && Binds(ConceptView(a, s), records[k], l) ensures !SameLink(Mirrors(symmetric, link.0), l, link) {
        BindsAcross(opts, a, s, b, t, rec, applied, records[k], l);
      }
    }
    assert Unclaimed(symmetric, ConceptView(a, s), records, taken, link);
    if rec.NamedRelation? && applied {
      var l :| TookNamed(a, s, b, t, rec, l);
      assert Binds(ConceptView(a, s), rec, l);
      assert !Claims(symmetric, ConceptView(b, t), rec, link);
      FreshAcross(symmetric, a, s, b, t, rec, l, link);
    } else {
      FreshByKeeps(a, s, b, t, link);
    }
  }

  lemma FreshByKeeps(a: State, s: Session, b: State, t: Session, link: EdgeEnds)
    requires Keeps(a, s, b, t) && Fresh(LinksOf(a, s), link)
    ensures Fresh(LinksOf(b, t), link)
  {
    hide LinkSays, Fresh, Absent;
    assert AspectKept(a, s, b, t, OfLink(link));
  }

  lemma SettledByKeeps(a: State, s: Session, b: State, t: Session)
    requires Keeps(a, s, b, t) && NamesSettled(a, s)
    ensures NamesSettled(b, t)
  {
    hide LinkKept, NameSettled;
    forall id ensures NameSettled(b, t, id) { assert AspectKept(a, s, b, t, OfName(id)) && NameSettled(a, s, id); }
  }

  lemma SettledByPut(a: State, s: Session, b: State, t: Session, link: EdgeEnds, weight: int, properties: Props)
    requires PutLink(a, s, b, t, link, weight, properties) && NamesSettled(a, s)
    ensures NamesSettled(b, t)
  {
    hide LinkKept, NameSettled, LinkSays;
    forall id ensures NameSettled(b, t, id) {
      assert Elsewhere(a.schema, link, OfName(id));
      assert AspectKept(a, s, b, t, OfName(id)) && NameSettled(a, s, id);
    }
  }

  lemma SettledOn(opts: Options, a: State, s: Session, b: State, t: Session, rec: Record, applied: bool)
    requires Plain(rec) && Took(opts, a, s, b, t, rec, applied) && NamesSettled(a, s)
    requires rec.NamedRelation? && applied ==> forall l :: Binds(ConceptView(a, s), rec, l) ==> Fresh(LinksOf(a, s), l)
    ensures NamesSettled(b, t)
  {
    hide LinkSays, Fresh, Keeps, PutLink, NamesSettled, Binds;
    if rec.NamedRelation? && applied {
      var l :| TookNamed(a, s, b, t, rec, l);
      assert Binds(ConceptView(a, s), rec, l);
      SettledByPut(a, s, b, t, l, rec.weight, rec.properties);
    } else {
      SettledByKeeps(a, s, b, t);
    }
  }

  /** The declarations leave the symmetric types as they are. */
  lemma SymmetryOn(opts: Options, symmetric: map<string, bool>, a: State, s: Session, b: State, t: Session, rec: Record, applied: bool)
    requires Plain(rec) && Took(opts, a, s, b, t, rec, applied) && SymmetryWithin(a.schema, symmetric)
    requires Regular(symmetric, rec)
    ensures SymmetryWithin(b.schema, symmetric)
  {
    hide LinkSays, Fresh, Keeps, PutLink, NamesSettled, Binds;
    if rec.ConceptTypeDecl? { MergedKeeps(a.schema, rec.decl); }
  }

  /** One record of a run taken. */
  lemma GoingOn(opts: Options, symmetric: map<string, bool>, a: State, s: Session, b: State, t: Session, log: seq<LogRecord>,
                records: seq<Record>, taken: set<nat>, i: nat, applied: bool)
    requires Repeatable(symmetric, records) && i < |records| && i !in taken && Took(opts, a, s, b, t, records[i], applied)
    requires Going(opts, symmetric, a, s, records, taken) && SessionOk(b, log, t)
    ensures Going(opts, symmetric, b, t, records, if applied then taken + {i} else taken)
  {
    hide SessionOk, Said, Took, Fresh, NamesSettled, Unclaimed, Apart, Binds;
    var rec := records[i];
    if rec.NamedRelation? { FreshNext(symmetric, a, s, records, taken, i); }
    SymmetryOn(opts, symmetric, a, s, b, t, rec, applied);
    SettledOn(opts, a, s, b, t, rec, applied);
    if applied { NowSaid(opts, a, s, b, t, log, rec); }
    forall k | k in taken ensures Said(opts, b, t, records[k]) {
      assert Plain(records[k]) && Regular(symmetric, records[k]) && Apart(symmetric, rec, records[k]);
      OtherStays(opts, symmetric, a, s, b, t, rec, applied, records[k]);
    }
    forall link | Unclaimed(symmetric, ConceptView(b, t), records, if applied then taken + {i} else taken, link)
      ensures Fresh(LinksOf(b, t), link)
    {
      FreshOn(opts, symmetric, a, s, b, t, records, taken, i, applied, link);
    }
  }

  lemma SaidByKeeps(opts: Options, a: State, s: Session, b: State, t: Session, rec: Record)
    requires Said(opts, a, s, rec) && Keeps(a, s, b, t) && ConceptView(b, t) == ConceptView(a, s) && b.schema == a.schema
    ensures Said(opts, b, t, rec)
  {
    hide LinkSays, Keeps;
    if rec.NamedRelation? {
      var link :| NamedSaid(a, s, rec, link);
      KeptAspect(a, s, b, t, OfLink(link));
      SaysKept(a, s, b, t, link, rec.weight, rec.properties);
      assert NamedSaid(b, t, rec, link);
    }
  }

  /** A barrier in between. */
  lemma GoingThrough(opts: Options, symmetric: map<string, bool>, a: State, s: Session, b: State, t: Session, records: seq<Record>, taken: set<nat>)
    requires Going(opts, symmetric, a, s, records, taken) && Keeps(a, s, b, t)
    requires ConceptView(b, t) == ConceptView(a, s) && b.schema == a.schema
    ensures Going(opts, symmetric, b, t, records, taken)
  {
    hide Said, Keeps, Fresh, Unclaimed, NamesSettled;
    SettledByKeeps(a, s, b, t);
    forall k | k in taken ensures Said(opts, b, t, records[k]) { SaidByKeeps(opts, a, s, b, t, records[k]); }
    forall link | Unclaimed(symmetric, ConceptView(b, t), records, taken, link) ensures Fresh(LinksOf(b, t), link) {
      FreshByKeeps(a, s, b, t, link);
    }
  }

  lemma GoingStarts(opts: Options, symmetric: map<string, bool>, st: State, records: seq<Record>)
    requires SymmetryWithin(st.schema, symmetric)
    ensures Going(opts, symmetric, st, NEW_SESSION, records, {})
  {
    assert ConceptView(st, NEW_SESSION) == st.concepts;
  }
}
