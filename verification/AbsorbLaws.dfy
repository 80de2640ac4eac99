/** When a relation record has nothing left to say: what the view holds of a
    link, and that settling a batch never takes it back. */
module AbsorbLaws {
  import opened Collections
  import opened OntologySchema
  import opened GraphState
  import opened StateLaws
  import opened BatchLaws
  import opened IngestState
  import opened SessionLaws
  import opened UpsertLaws

  /** The applied edges, the additions and the updates that wait. */
  datatype Links = Links(
    schema: Schema, relations: map<nat, Relation>, order: seq<nat>, adding: seq<Relation>, updating: seq<Relation>)

  function LinksOf(st: State, s: Session): Links {
    Links(st.schema, st.relations, st.order, s.pendingRelations, s.pendingUpdates)
  }

  // ---------- the applied edge of a link ----------

  function FirstWith(relations: map<nat, Relation>, order: seq<nat>, ends: EdgeEnds): (r: Option<nat>)
    ensures r.Some? ==> r.value in order && r.value in relations && EndsOf(relations[r.value]) == ends
  {
    if order == [] then None else
    var l := |order| - 1;
    var rest := FirstWith(relations, order[..l], ends);
    if rest.Some? then rest else
    if order[l] in relations && EndsOf(relations[order[l]]) == ends then Some(order[l]) else None
  }

  lemma {:induction false} FirstToSnoc(relations: map<nat, Relation>, ids: seq<nat>, x: nat, target: nat)
    ensures FirstTo(relations, ids + [x], target) ==
      if FirstTo(relations, ids, target).Some? then FirstTo(relations, ids, target) else FirstTo(relations, [x], target)
  {
    if ids == [] {
      assert ids + [x] == [x];
    } else {
      assert (ids + [x])[1..] == ids[1..] + [x];
      FirstToSnoc(relations, ids[1..], x, target);
    }
  }

  /** `relation_between` finds the oldest edge with these ends. */
  lemma {:induction false} BetweenIsFirst(relations: map<nat, Relation>, order: seq<nat>, ends: EdgeEnds)
    ensures FirstTo(relations, Select(relations, order, Sel(true, ends.1, Some(ends.0))), ends.2) == FirstWith(relations, order, ends)
  {
    if order != [] {
      var l := |order| - 1;
      BetweenIsFirst(relations, order[..l], ends);
      FirstToSnoc(relations, Select(relations, order[..l], Sel(true, ends.1, Some(ends.0))), order[l], ends.2);
    }
  }

  lemma {:induction false} FirstSame(a: map<nat, Relation>, b: map<nat, Relation>, order: seq<nat>, ends: EdgeEnds)
    requires forall id :: id in order ==> id in a && id in b && EndsOf(a[id]) == EndsOf(b[id])
    ensures FirstWith(a, order, ends) == FirstWith(b, order, ends)
  {
    if order != [] { FirstSame(a, b, order[..|order| - 1], ends); }
  }

  function Reversed(link: EdgeEnds): EdgeEnds { (link.0, link.2, link.1) }

  /** The edge an upsert of the link finds: either way round when symmetric. */
  function AppliedLink(l: Links, link: EdgeEnds): Option<nat> {
    var a := FirstWith(l.relations, l.order, link);
    if a.Some? || !IsSymmetric(l.schema, link.0) then a else FirstWith(l.relations, l.order, Reversed(link))
  }

  // ---------- what is said of a link ----------

  predicate NoSame(batch: seq<Relation>, symmetric: bool, link: EdgeEnds) {
    forall i :: 0 <= i < |batch| ==> !SameLink(symmetric, EndsOf(batch[i]), link)
  }

  predicate Says(r: Relation, weight: int, properties: Props) { r.weight == weight && r.properties == properties }

  predicate OnlyAt(batch: seq<Relation>, symmetric: bool, link: EdgeEnds, i: nat) {
    && i < |batch| && SameLink(symmetric, EndsOf(batch[i]), link)
    && forall j :: 0 <= j < |batch| && j != i ==> !SameLink(symmetric, EndsOf(batch[j]), link)
  }

  ghost predicate AddingSays(l: Links, link: EdgeEnds, weight: int, properties: Props) {
    && NoSame(l.updating, IsSymmetric(l.schema, link.0), link)
    && exists i: nat :: OnlyAt(l.adding, IsSymmetric(l.schema, link.0), link, i) && Says(l.adding[i], weight, properties)
  }

  predicate AppliedSays(l: Links, id: nat, link: EdgeEnds, weight: int, properties: Props) {
    && id in l.relations && NoSame(l.adding, IsSymmetric(l.schema, link.0), link)
    && (NoSame(l.updating, IsSymmetric(l.schema, link.0), link) ==> Says(l.relations[id], weight, properties))
    && forall i :: 0 <= i < |l.updating| && SameLink(IsSymmetric(l.schema, link.0), EndsOf(l.updating[i]), link) ==>
         l.updating[i].id == id && Says(l.updating[i], weight, properties)
  }

  /** Once everything pending is applied, an upsert of the link finds an edge
      that already carries these values. */
  ghost predicate LinkSays(l: Links, link: EdgeEnds, weight: int, properties: Props) {
    var a := AppliedLink(l, link);
    if a.Some? then AppliedSays(l, a.value, link, weight, properties) else AddingSays(l, link, weight, properties)
  }

  /** Nothing waits for the link. */
  predicate Fresh(l: Links, link: EdgeEnds) {
    NoSame(l.adding, IsSymmetric(l.schema, link.0), link) && NoSame(l.updating, IsSymmetric(l.schema, link.0), link)
  }

  predicate Absent(l: Links, link: EdgeEnds) { AppliedLink(l, link).None? && Fresh(l, link) }

  predicate SameSymmetry(a: Schema, b: Schema, rtype: string) { IsSymmetric(a, rtype) == IsSymmetric(b, rtype) }

  /** The type has not stopped being symmetric. */
  predicate SymmetryGrows(a: Schema, b: Schema, rtype: string) { IsSymmetric(a, rtype) ==> IsSymmetric(b, rtype) }

  /** What was said of a link is still said; what was absent or fresh stays so. */
  ghost predicate LinkKept(a: Links, b: Links, link: EdgeEnds) {
    && (Fresh(a, link) ==> Fresh(b, link))
    && (SameSymmetry(a.schema, b.schema, link.0) && Absent(a, link) ==> Absent(b, link))
    && (SymmetryGrows(a.schema, b.schema, link.0) ==>
          forall weight, properties :: LinkSays(a, link, weight, properties) ==> LinkSays(b, link, weight, properties))
  }

  // ---------- one addition applied ----------

  function Appended(l: Links, rel: Relation): Links {
    l.(relations := l.relations[rel.id := rel], order := l.order + [rel.id])
  }

  predicate Ordered(l: Links) { forall id :: id in l.order ==> id in l.relations }

  lemma FirstAppended(l: Links, rel: Relation, ends: EdgeEnds)
    requires Ordered(l) && rel.id !in l.relations
    ensures Ordered(Appended(l, rel))
    ensures FirstWith(Appended(l, rel).relations, Appended(l, rel).order, ends) ==
      if FirstWith(l.relations, l.order, ends).Some? then FirstWith(l.relations, l.order, ends)
      else if EndsOf(rel) == ends then Some(rel.id) else None
  {
    var b := Appended(l, rel);
    assert b.order[..|l.order|] == l.order;
    FirstSame(l.relations, b.relations, l.order, ends);
  }

  /** Appending an edge finds or hides no other link. */
  lemma AppendedElsewhere(l: Links, rel: Relation, link: EdgeEnds)
    requires Ordered(l) && rel.id !in l.relations && !SameLink(IsSymmetric(l.schema, link.0), EndsOf(rel), link)
    ensures AppliedLink(Appended(l, rel), link) == AppliedLink(l, link)
  {
    FirstAppended(l, rel, link);
    FirstAppended(l, rel, Reversed(link));
  }

  lemma AppendedHere(l: Links, rel: Relation, link: EdgeEnds)
    requires Ordered(l) && rel.id !in l.relations && AppliedLink(l, link).None?
    requires SameLink(IsSymmetric(l.schema, link.0), EndsOf(rel), link)
    ensures AppliedLink(Appended(l, rel), link) == Some(rel.id)
  {
    FirstAppended(l, rel, link);
    FirstAppended(l, rel, Reversed(link));
  }

  // ---------- flushing the additions ----------

  lemma NoSameTail(batch: seq<Relation>, symmetric: bool, link: EdgeEnds)
    requires batch != []
    ensures NoSame(batch, symmetric, link) <==> !SameLink(symmetric, EndsOf(batch[0]), link) && NoSame(batch[1..], symmetric, link)
  {
    forall i | 0 <= i < |batch[1..]| ensures batch[1..][i] == batch[i + 1] { }
    if !SameLink(symmetric, EndsOf(batch[0]), link) && NoSame(batch[1..], symmetric, link) {
      forall i | 0 <= i < |batch| ensures !SameLink(symmetric, EndsOf(batch[i]), link) {
        if i > 0 { assert batch[1..][i - 1] == batch[i]; }
      }
    }
  }

  lemma OnlyTail(batch: seq<Relation>, symmetric: bool, link: EdgeEnds, i: nat)
    requires batch != [] && OnlyAt(batch, symmetric, link, i)
    ensures i == 0 ==> NoSame(batch[1..], symmetric, link) && SameLink(symmetric, EndsOf(batch[0]), link)
    ensures i > 0 ==> OnlyAt(batch[1..], symmetric, link, i - 1) && !SameLink(symmetric, EndsOf(batch[0]), link)
  {
    forall j | 0 <= j < |batch[1..]| ensures batch[1..][j] == batch[j + 1] { }
  }

  /** The edges once one addition is applied. */
  function Added(l: Links, rel: Relation, inverse: nat): Links {
    if IsSymmetric(l.schema, rel.rtype) && rel.source != rel.target then Appended(Appended(l, rel), Inverse(rel, inverse)) else Appended(l, rel)
  }

  lemma AddedIsApplied(st: State, rel: Relation, adding: seq<Relation>, updating: seq<Relation>)
    requires WellFormed(st) && Flushable(st, rel)
    ensures var l, next := Links(st.schema, st.relations, st.order, adding, updating), ApplyRelation(st, rel).0;
      && Ordered(l) && rel.id !in st.relations && st.nextRelation !in st.relations && st.nextRelation != rel.id
      && Links(next.schema, next.relations, next.order, adding, updating) == Added(l, rel, st.nextRelation)
  {
  }

  predicate FreshId(l: Links, rel: Relation, inverse: nat) {
    Ordered(l) && rel.id !in l.relations && inverse !in l.relations && inverse != rel.id
  }

  lemma AddedElsewhere(l: Links, rel: Relation, inverse: nat, link: EdgeEnds)
    requires FreshId(l, rel, inverse) && !SameLink(IsSymmetric(l.schema, link.0), EndsOf(rel), link)
    ensures AppliedLink(Added(l, rel, inverse), link) == AppliedLink(l, link)
  {
    AppendedElsewhere(l, rel, link);
    if Added(l, rel, inverse) != Appended(l, rel) {
      assert Ordered(Appended(l, rel));
      AppendedElsewhere(Appended(l, rel), Inverse(rel, inverse), link);
    }
  }

  lemma AddedHere(l: Links, rel: Relation, inverse: nat, link: EdgeEnds)
    requires FreshId(l, rel, inverse) && AppliedLink(l, link).None?
    requires SameLink(IsSymmetric(l.schema, link.0), EndsOf(rel), link)
    ensures var a := AppliedLink(Added(l, rel, inverse), link);
      a.Some? && a.value in Added(l, rel, inverse).relations && Says(Added(l, rel, inverse).relations[a.value], rel.weight, rel.properties)
  {
    AppendedHere(l, rel, link);
    var l1 := Appended(l, rel);
    if Added(l, rel, inverse) != l1 {
      FirstAppended(l, rel, link);
      FirstAppended(l, rel, Reversed(link));
      FirstAppended(l1, Inverse(rel, inverse), link);
      FirstAppended(l1, Inverse(rel, inverse), Reversed(link));
    }
  }

  /** One addition moves from the batch to the graph. */
  function Moved(l: Links, inverse: nat): Links
    requires l.adding != []
  {
    Added(l, l.adding[0], inverse).(adding := l.adding[1..])
  }

  lemma MovedSays(l: Links, inverse: nat, link: EdgeEnds, weight: int, properties: Props)
    requires l.adding != [] && FreshId(l, l.adding[0], inverse) && LinkSays(l, link, weight, properties)
    ensures LinkSays(Moved(l, inverse), link, weight, properties)
  {
    var symmetric, rel := IsSymmetric(l.schema, link.0), l.adding[0];
    if AppliedLink(l, link).Some? {
      NoSameTail(l.adding, symmetric, link);
      AddedElsewhere(l, rel, inverse, link);
    } else {
      var i: nat :| OnlyAt(l.adding, symmetric, link, i) && Says(l.adding[i], weight, properties);
      OnlyTail(l.adding, symmetric, link, i);
      if i == 0 {
        AddedHere(l, rel, inverse, link);
      } else {
        AddedElsewhere(l, rel, inverse, link);
        assert l.adding[1..][i - 1] == l.adding[i];
        assert OnlyAt(Moved(l, inverse).adding, symmetric, link, i - 1);
      }
    }
  }

  lemma MovedKept(l: Links, inverse: nat, link: EdgeEnds)
    requires l.adding != [] && FreshId(l, l.adding[0], inverse)
    ensures LinkKept(l, Moved(l, inverse), link)
  {
    NoSameTail(l.adding, IsSymmetric(l.schema, link.0), link);
    if Fresh(l, link) { AddedElsewhere(l, l.adding[0], inverse, link); }
    forall weight, properties | LinkSays(l, link, weight, properties) ensures LinkSays(Moved(l, inverse), link, weight, properties) {
      MovedSays(l, inverse, link, weight, properties);
    }
  }

  lemma KeptOnward(a: Links, b: Links, c: Links, link: EdgeEnds)
    requires LinkKept(a, b, link) && LinkKept(b, c, link) && SameSymmetry(a.schema, b.schema, link.0)
    ensures LinkKept(a, c, link)
  {
  }

  /** A relation batch flushed. */
  lemma {:induction false} FlushKeeps(st: State, batch: seq<Relation>, updating: seq<Relation>, link: EdgeEnds)
    requires WellFormed(st) && RelationsPending(st, batch)
    ensures var next := LinkedAll(st, batch);
      LinkKept(Links(st.schema, st.relations, st.order, batch, updating), Links(next.schema, next.relations, next.order, [], updating), link)
      && next.schema == st.schema
    decreases batch
  {
    if batch != [] {
      assert Flushable(st, batch[0]);
      var l, next := Links(st.schema, st.relations, st.order, batch, updating), ApplyRelation(st, batch[0]).0;
      AddedIsApplied(st, batch[0], batch, updating);
      MovedKept(l, st.nextRelation, link);
      FlushStep(st, batch);
      FlushKeeps(next, batch[1..], updating, link);
      assert Moved(l, st.nextRelation) == Links(next.schema, next.relations, next.order, batch[1..], updating);
      KeptOnward(l, Moved(l, st.nextRelation), Links(st.schema, LinkedAll(st, batch).relations, LinkedAll(st, batch).order, [], updating), link);
    }
  }

  // ---------- flushing the updates ----------

  lemma AppliedBySame(a: Links, b: Links, link: EdgeEnds)
    requires Ordered(a) && b.order == a.order && b.schema == a.schema && b.relations.Keys == a.relations.Keys
    requires forall id :: id in a.relations ==> EndsOf(b.relations[id]) == EndsOf(a.relations[id])
    ensures AppliedLink(b, link) == AppliedLink(a, link)
  {
    FirstSame(a.relations, b.relations, a.order, link);
    FirstSame(a.relations, b.relations, a.order, Reversed(link));
  }

  /** An update writes the values on its edge, and touches only edges of the
      same link. */
  lemma UpdateTouches(st: State, u: Relation, id: nat)
    requires u.id in st.relations && EndsOf(st.relations[u.id]) == EndsOf(u) && id in st.relations
    ensures var next := ApplyRelationUpdate(st, u).0;
      && id in next.relations
      && (id == u.id ==> Says(next.relations[id], u.weight, u.properties))
      && (!SameLink(IsSymmetric(st.schema, u.rtype), EndsOf(st.relations[id]), EndsOf(u)) ==> next.relations[id] == st.relations[id])
  {
    var st1 := WithWeight(st, u.id, u.weight, u.properties);
    var snapshot := st1.relations[u.id];
    var mirror := MirrorOf(st1, snapshot);
    if mirror.Some? {
      SelectMembers(st1.relations, st1.order, Sel(true, snapshot.target, Some(snapshot.rtype)));
      assert EndsOf(st1.relations[mirror.value]) == Reversed(EndsOf(u));
    }
  }

  lemma UpdatedSays(st: State, adding: seq<Relation>, batch: seq<Relation>, link: EdgeEnds, weight: int, properties: Props)
    requires WellFormed(st) && batch != [] && batch[0].id in st.relations && EndsOf(st.relations[batch[0].id]) == EndsOf(batch[0])
    requires LinkSays(Links(st.schema, st.relations, st.order, adding, batch), link, weight, properties)
    ensures var next := ApplyRelationUpdate(st, batch[0]).0;
      LinkSays(Links(next.schema, next.relations, next.order, adding, batch[1..]), link, weight, properties)
  {
    var next, u := ApplyRelationUpdate(st, batch[0]).0, batch[0];
    var l := Links(st.schema, st.relations, st.order, adding, batch);
    var b := Links(next.schema, next.relations, next.order, adding, batch[1..]);
    UpdatedShape(st, u);
    AppliedBySame(l, b, link);
    NoSameTail(batch, IsSymmetric(st.schema, link.0), link);
    var a := AppliedLink(l, link);
    if a.Some? {
      UpdateTouches(st, u, a.value);
      forall i | 0 <= i < |batch[1..]| ensures batch[1..][i] == batch[i + 1] { }
    }
  }

  lemma UpdatedKept(st: State, adding: seq<Relation>, batch: seq<Relation>, link: EdgeEnds)
    requires WellFormed(st) && batch != [] && batch[0].id in st.relations && EndsOf(st.relations[batch[0].id]) == EndsOf(batch[0])
    ensures var next := ApplyRelationUpdate(st, batch[0]).0;
      LinkKept(Links(st.schema, st.relations, st.order, adding, batch), Links(next.schema, next.relations, next.order, adding, batch[1..]), link)
  {
    var next := ApplyRelationUpdate(st, batch[0]).0;
    var l := Links(st.schema, st.relations, st.order, adding, batch);
    var b := Links(next.schema, next.relations, next.order, adding, batch[1..]);
    UpdatedShape(st, batch[0]);
    AppliedBySame(l, b, link);
    NoSameTail(batch, IsSymmetric(st.schema, link.0), link);
    forall weight, properties | LinkSays(l, link, weight, properties) ensures LinkSays(b, link, weight, properties) {
      UpdatedSays(st, adding, batch, link, weight, properties);
    }
  }

  /** An update batch flushed. */
  lemma {:induction false} FlushUpdatesKeeps(st: State, adding: seq<Relation>, batch: seq<Relation>, link: EdgeEnds)
    requires WellFormed(st) && UpdatesPending(st, batch)
    ensures var next := UpdatedAll(st, batch);
      LinkKept(Links(st.schema, st.relations, st.order, adding, batch), Links(next.schema, next.relations, next.order, adding, []), link)
      && next.schema == st.schema
    decreases batch
  {
    if batch != [] {
      var next := ApplyRelationUpdate(st, batch[0]).0;
      assert batch[0].id in st.relations;
      UpdatedKept(st, adding, batch, link);
      UpdatedShape(st, batch[0]);
      RelationUpdateWellFormed(st, batch[0]);
      assert UpdatesPending(st, batch[1..]);
      UpdatesStayPending(st, next, batch[1..]);
      FlushUpdatesKeeps(next, adding, batch[1..], link);
      KeptOnward(Links(st.schema, st.relations, st.order, adding, batch),
                 Links(next.schema, next.relations, next.order, adding, batch[1..]),
                 Links(st.schema, UpdatedAll(st, batch).relations, UpdatedAll(st, batch).order, adding, []), link);
    }
  }

  // ---------- moves of the session ----------

  /** The pending version of a live concept keeps its name. */
  predicate NameSettled(st: State, s: Session, id: nat) {
    id in st.concepts ==> id in ConceptView(st, s) && KeyOf(ConceptView(st, s)[id]) == KeyOf(st.concepts[id])
  }

  /** The link is among the edges that everything pending leads to. */
  ghost predicate HasEdge(l: Links, e: EdgeEnds) {
    (exists id :: id in l.relations && EndsOf(l.relations[id]) == e) || e in LogEnds(EffectsAll(l.schema, l.adding))
  }

  datatype Aspect = OfLink(link: EdgeEnds) | OfName(id: nat) | OfEdge(edge: EdgeEnds)

  ghost predicate AspectKept(a: State, s: Session, b: State, t: Session, x: Aspect) {
    match x
    case OfLink(link) => LinkKept(LinksOf(a, s), LinksOf(b, t), link)
    case OfName(id) => NameSettled(a, s, id) ==> NameSettled(b, t, id)
    case OfEdge(e) => HasEdge(LinksOf(a, s), e) ==> HasEdge(LinksOf(b, t), e)
  }

  lemma InEdges(st: State, adding: seq<Relation>, updating: seq<Relation>, e: EdgeEnds)
    requires WellFormed(st)
    ensures HasEdge(Links(st.schema, st.relations, st.order, adding, updating), e) <==>
            e in LogEnds(Edges(st) + EffectsAll(st.schema, adding))
  {
    var log, more := Edges(st), EffectsAll(st.schema, adding);
    LogEndsConcat(log, more);
    if id :| id in st.relations && EndsOf(st.relations[id]) == e {
      var i :| 0 <= i < |st.order| && st.order[i] == id;
      assert LogEnds(log)[i] == e;
    }
    if e in LogEnds(log) {
      var i :| 0 <= i < |log| && LogEnds(log)[i] == e;
      assert st.order[i] in st.relations && EndsOf(st.relations[st.order[i]]) == e;
    }
  }

  lemma {:induction false} LinkedView(st: State, batch: seq<Relation>)
    requires WellFormed(st) && RelationsPending(st, batch)
    ensures WellFormed(LinkedAll(st, batch)) && LinkedAll(st, batch).schema == st.schema
    ensures Edges(LinkedAll(st, batch)) == Edges(st) + EffectsAll(st.schema, batch)
    decreases batch
  {
    if batch != [] {
      FlushStep(st, batch);
      LinkedView(ApplyRelation(st, batch[0]).0, batch[1..]);
    }
  }

  lemma FlushEdges(st: State, batch: seq<Relation>, updating: seq<Relation>, e: EdgeEnds)
    requires WellFormed(st) && RelationsPending(st, batch)
    ensures var next := LinkedAll(st, batch);
      HasEdge(Links(st.schema, st.relations, st.order, batch, updating), e)
      ==> HasEdge(Links(next.schema, next.relations, next.order, [], updating), e)
  {
    hide RelationsPending, HasEdge;
    LinkedView(st, batch);
    InEdges(st, batch, updating, e);
    InEdges(LinkedAll(st, batch), [], updating, e);
    assert Edges(LinkedAll(st, batch)) + EffectsAll(st.schema, []) == Edges(LinkedAll(st, batch));
  }

  lemma MoreEdges(l: Links, r: Relation, e: EdgeEnds)
    requires HasEdge(l, e)
    ensures HasEdge(l.(adding := l.adding + [r]), e)
  {
    EffectsSnoc(l.schema, l.adding, r);
    LogEndsConcat(EffectsAll(l.schema, l.adding), Effects(l.schema, r));
  }

  /** A move that takes nothing back. */
  ghost predicate Keeps(a: State, s: Session, b: State, t: Session) { forall x :: AspectKept(a, s, b, t, x) }

  lemma KeepsOnward(a: State, s: Session, b: State, t: Session, c: State, u: Session)
    requires Keeps(a, s, b, t) && Keeps(b, t, c, u) && b.schema == a.schema
    ensures Keeps(a, s, c, u)
  {
    forall x ensures AspectKept(a, s, c, u, x) {
      assert AspectKept(a, s, b, t, x) && AspectKept(b, t, c, u, x);
      if x.OfLink? { KeptOnward(LinksOf(a, s), LinksOf(b, t), LinksOf(c, u), x.link); }
    }
  }

  /** A move that touches no relation. */
  lemma KeepsSame(a: State, s: Session, b: State, t: Session)
    requires LinksOf(b, t) == LinksOf(a, s) && forall id :: NameSettled(a, s, id) ==> NameSettled(b, t, id)
    ensures Keeps(a, s, b, t)
  {
  }

  /** Only bookkeeping moved. */
  lemma IdleKeeps(st: State, s: Session, t: Session)
    requires t.pending == s.pending && t.pendingRelations == s.pendingRelations && t.pendingUpdates == s.pendingUpdates
    ensures Keeps(st, s, st, t)
  {
    forall id | NameSettled(st, s, id) ensures NameSettled(st, t, id) { assert ConceptView(st, t) == ConceptView(st, s); }
    KeepsSame(st, s, st, t);
  }

  /** The concept batch settled. */
  lemma SettledKeeps(a: State, s: Session, b: State, t: Session)
    requires SameButConcepts(a, b) && t.pending == [] && t.pendingRelations == s.pendingRelations && t.pendingUpdates == s.pendingUpdates
    ensures Keeps(a, s, b, t)
  {
    forall id ensures NameSettled(b, t, id) { }
    KeepsSame(a, s, b, t);
  }

  lemma LinkedKeeps(st: State, s: Session)
    requires WellFormed(st) && RelationsPending(st, s.pendingRelations) && SameButEdges(st, LinkedAll(st, s.pendingRelations))
    ensures Keeps(st, s, LinkedAll(st, s.pendingRelations), s.(pendingRelations := []))
  {
    var b, t := LinkedAll(st, s.pendingRelations), s.(pendingRelations := []);
    forall x ensures AspectKept(st, s, b, t, x) {
      match x
      case OfLink(link) => FlushKeeps(st, s.pendingRelations, s.pendingUpdates, link);
      case OfEdge(e) => FlushEdges(st, s.pendingRelations, s.pendingUpdates, e);
      case OfName(_) => assert ConceptView(b, t) == ConceptView(st, s);
    }
  }

  lemma UpdatedKeeps(st: State, s: Session)
    requires WellFormed(st) && UpdatesPending(st, s.pendingUpdates) && SameShape(st, UpdatedAll(st, s.pendingUpdates))
    ensures Keeps(st, s, UpdatedAll(st, s.pendingUpdates), s.(pendingUpdates := []))
  {
    var b, t := UpdatedAll(st, s.pendingUpdates), s.(pendingUpdates := []);
    forall x ensures AspectKept(st, s, b, t, x) {
      match x
      case OfLink(link) => FlushUpdatesKeeps(st, s.pendingRelations, s.pendingUpdates, link);
      case OfEdge(e) => assert forall id :: id in st.relations ==> EndsOf(b.relations[id]) == EndsOf(st.relations[id]);
      case OfName(_) => assert ConceptView(b, t) == ConceptView(st, s);
    }
  }

  // ---------- concepts ----------

  ghost predicate NamesSettled(st: State, s: Session) { forall id :: NameSettled(st, s, id) }

  /** The record's name is the one its explicit id already has. */
  predicate SameName(st: State, c: Concept) { c.id in st.concepts ==> KeyOf(st.concepts[c.id]) == KeyOf(c) }

  lemma StagedKeeps(st: State, log: seq<LogRecord>, s: Session, c: Concept)
    requires SessionOk(st, log, s) && PrepareConcept(st, c).1.Ok? && SameName(st, c)
    ensures Keeps(st, s, PrepareConcept(st, c).0, Staged(s, PrepareConcept(st, c).1.value))
  {
    var (st1, r) := PrepareConcept(st, c);
    StagedView(st, log, s, c);
    PreparedConceptFrame(st, c);
    forall id | NameSettled(st, s, id) ensures NameSettled(st1, Staged(s, r.value), id) {
      if id in st.concepts { OverlayKeeps(st.concepts, s.pending, id); }
    }
    KeepsSame(st, s, st1, Staged(s, r.value));
  }

  /** An upsert of `c` leaves the concept as it is. */
  predicate AlreadySaid(opts: Options, prev: Concept, c: Concept) { prev == Refreshed(opts, prev, c).(id := prev.id) }

  /** Staging the same record again changes nothing. */
  lemma RefreshedTwice(opts: Options, prev: Concept, c: Concept, id: nat)
    ensures AlreadySaid(opts, Refreshed(opts, prev, c).(id := id), c)
    ensures AlreadySaid(opts, c.(id := id), c)
  {
    assert (prev.properties + c.properties) + c.properties == prev.properties + c.properties;
    assert c.properties + c.properties == c.properties;
  }

  /** An upsert finds a concept of this name that already says all of `c`. */
  ghost predicate ConceptAbsorbed(opts: Options, concepts: map<nat, Concept>, c: Concept) {
    && c.id == 0
    && exists id :: NamedBy(concepts, KeyOf(c), id) && concepts[id].id == id && AlreadySaid(opts, concepts[id], c)
  }

  /** An upsert has nothing to say exactly when a concept of the record's type
      and name is there that merging would leave as it is. */
  lemma AbsorbedMeans(opts: Options, concepts: map<nat, Concept>, c: Concept)
    ensures ConceptAbsorbed(opts, concepts, c) <==> c.id == 0 && exists id ::
      NamedBy(concepts, KeyOf(c), id) && concepts[id].id == id && MergedWith(opts.mergeProperties, concepts[id], c, concepts[id])
  {
    forall id | NamedBy(concepts, KeyOf(c), id)
      ensures AlreadySaid(opts, concepts[id], c) <==> MergedWith(opts.mergeProperties, concepts[id], c, concepts[id])
    {
      RefreshedMeans(opts, concepts[id], c, concepts[id]);
    }
  }

  /** The concept found by name still has that name once its id is settled. */
  lemma StillNamed(a: State, s: Session, found: State, before: Session, st: State, after: Session, key: NameKey, id: nat)
    requires WellFormed(found) && Find(found, key) == Some(id) && id in st.concepts && id in ConceptView(st, after)
    requires Keeps(a, s, found, before) && NameSettled(a, s, id)
    requires st.concepts[id] == ConceptView(st, after)[id] && ConceptView(st, after) == ConceptView(found, before)
    ensures KeyOf(st.concepts[id]) == key
  {
    assert AspectKept(a, s, found, before, OfName(id));
    assert NamedBy(found.concepts, key, id);
  }

  lemma AbsorbedFound(opts: Options, st: State, c: Concept)
    requires WellFormed(st) && ConceptAbsorbed(opts, st.concepts, c)
    ensures c.id == 0 && Find(st, KeyOf(c)).Some?
    ensures var id := Find(st, KeyOf(c)).value; id in st.concepts && AlreadySaid(opts, st.concepts[id], c)
  {
    var id :| NamedBy(st.concepts, KeyOf(c), id) && st.concepts[id].id == id && AlreadySaid(opts, st.concepts[id], c);
    FindUnique(st, KeyOf(c), id);
  }

  // ---------- one link put ----------

  predicate Elsewhere(schema: Schema, link: EdgeEnds, x: Aspect) {
    x.OfLink? ==> !SameLink(IsSymmetric(schema, link.0), x.link, link)
  }

  /** A move that takes nothing back, but for one link. */
  ghost predicate KeepsBut(a: State, s: Session, b: State, t: Session, link: EdgeEnds) {
    forall x :: Elsewhere(a.schema, link, x) ==> AspectKept(a, s, b, t, x)
  }

  /** A move after which the link says these values. */
  ghost predicate PutLink(a: State, s: Session, b: State, t: Session, link: EdgeEnds, weight: int, properties: Props) {
    KeepsBut(a, s, b, t, link) && LinkSays(LinksOf(b, t), link, weight, properties)
  }

  lemma PutThenKept(a: State, s: Session, b: State, t: Session, c: State, u: Session, link: EdgeEnds, weight: int, properties: Props)
    requires PutLink(a, s, b, t, link, weight, properties) && Keeps(b, t, c, u) && b.schema == a.schema && c.schema == a.schema
    ensures PutLink(a, s, c, u, link, weight, properties)
  {
    hide LinkSays, Fresh, Absent;
    assert AspectKept(b, t, c, u, OfLink(link));
    forall x | Elsewhere(a.schema, link, x) ensures AspectKept(a, s, c, u, x) {
      assert AspectKept(a, s, b, t, x) && AspectKept(b, t, c, u, x);
      if x.OfLink? { KeptOnward(LinksOf(a, s), LinksOf(b, t), LinksOf(c, u), x.link); }
    }
  }

  lemma KeptThenPut(a: State, s: Session, b: State, t: Session, c: State, u: Session, link: EdgeEnds, weight: int, properties: Props)
    requires Keeps(a, s, b, t) && PutLink(b, t, c, u, link, weight, properties) && b.schema == a.schema
    ensures PutLink(a, s, c, u, link, weight, properties)
  {
    hide LinkSays, Fresh, Absent;
    forall x | Elsewhere(a.schema, link, x) ensures AspectKept(a, s, c, u, x) {
      assert AspectKept(a, s, b, t, x) && AspectKept(b, t, c, u, x);
      if x.OfLink? { KeptOnward(LinksOf(a, s), LinksOf(b, t), LinksOf(c, u), x.link); }
    }
  }

  lemma FreshKept(a: State, s: Session, b: State, t: Session, link: EdgeEnds)
    requires Keeps(a, s, b, t) && b.schema == a.schema
    ensures Fresh(LinksOf(a, s), link) ==> Fresh(LinksOf(b, t), link)
    ensures Absent(LinksOf(a, s), link) ==> Absent(LinksOf(b, t), link)
  {
    hide LinkSays, Fresh, Absent;
    assert AspectKept(a, s, b, t, OfLink(link));
  }

  lemma NoSameSnoc(batch: seq<Relation>, r: Relation, symmetric: bool, link: EdgeEnds)
    ensures NoSame(batch + [r], symmetric, link) <==> NoSame(batch, symmetric, link) && !SameLink(symmetric, EndsOf(r), link)
  {
    forall i | 0 <= i < |batch| ensures (batch + [r])[i] == batch[i] { }
    assert (batch + [r])[|batch|] == r;
  }

  lemma OnlySnoc(batch: seq<Relation>, r: Relation, symmetric: bool, link: EdgeEnds, i: nat)
    requires OnlyAt(batch, symmetric, link, i) && !SameLink(symmetric, EndsOf(r), link)
    ensures OnlyAt(batch + [r], symmetric, link, i)
  {
  }

  /** An addition or an update that waits says nothing of other links. */
  lemma OtherLinkKept(l: Links, r: Relation, link: EdgeEnds)
    requires !SameLink(IsSymmetric(l.schema, link.0), EndsOf(r), link)
    ensures LinkKept(l, l.(adding := l.adding + [r]), link) && LinkKept(l, l.(updating := l.updating + [r]), link)
  {
    var symmetric := IsSymmetric(l.schema, link.0);
    var b, c := l.(adding := l.adding + [r]), l.(updating := l.updating + [r]);
    NoSameSnoc(l.adding, r, symmetric, link);
    NoSameSnoc(l.updating, r, symmetric, link);
    forall weight, properties | LinkSays(l, link, weight, properties)
      ensures LinkSays(b, link, weight, properties) && LinkSays(c, link, weight, properties)
    {
      if AppliedLink(l, link).None? {
        var i: nat :| OnlyAt(l.adding, symmetric, link, i) && Says(l.adding[i], weight, properties);
        OnlySnoc(l.adding, r, symmetric, link, i);
        assert b.adding[i] == l.adding[i];
      }
    }
  }

  lemma LinkTurned(symmetric: bool, a: EdgeEnds, b: EdgeEnds)
    ensures SameLink(symmetric, a, b) <==> SameLink(symmetric, b, a)
  {
  }

  /** A relation that joins the batch. */
  lemma PendedKeeps(a: State, s: Session, b: State, t: Session, r: Relation)
    requires b == a.(nextRelation := b.nextRelation) && t == s.(pendingRelations := s.pendingRelations + [r])
    ensures KeepsBut(a, s, b, t, EndsOf(r))
    ensures Absent(LinksOf(a, s), EndsOf(r)) ==> LinkSays(LinksOf(b, t), EndsOf(r), r.weight, r.properties)
  {
    var l := LinksOf(a, s);
    forall x | Elsewhere(a.schema, EndsOf(r), x) ensures AspectKept(a, s, b, t, x) {
      match x
      case OfLink(link) =>
        LinkTurned(IsSymmetric(a.schema, r.rtype), link, EndsOf(r));
        OtherLinkKept(l, r, link);
      case OfEdge(e) => if HasEdge(l, e) { MoreEdges(l, r, e); }
      case OfName(_) => assert ConceptView(b, t) == ConceptView(a, s);
    }
    if Absent(l, EndsOf(r)) { AloneSays(l, r); }
  }

  lemma AloneSays(l: Links, r: Relation)
    requires Absent(l, EndsOf(r))
    ensures LinkSays(l.(adding := l.adding + [r]), EndsOf(r), r.weight, r.properties)
  {
    var b := l.(adding := l.adding + [r]);
    assert b.adding[|l.adding|] == r;
    assert OnlyAt(b.adding, IsSymmetric(l.schema, r.rtype), EndsOf(r), |l.adding|);
  }

  /** An update of the applied edge that joins the batch. */
  lemma AskedKeeps(st: State, s: Session, t: Session, link: EdgeEnds, id: nat, weight: int, properties: Props)
    requires AppliedLink(LinksOf(st, s), link) == Some(id) && Fresh(LinksOf(st, s), link) && id in st.relations
    requires SameLink(IsSymmetric(st.schema, link.0), EndsOf(st.relations[id]), link)
    requires t == s.(pendingUpdates := s.pendingUpdates + [Reset(st.relations[id], weight, properties)]) && st.relations[id].id == id
    ensures PutLink(st, s, st, t, link, weight, properties)
  {
    var l, r := LinksOf(st, s), Reset(st.relations[id], weight, properties);
    forall x | Elsewhere(st.schema, link, x) ensures AspectKept(st, s, st, t, x) {
      if x.OfLink? { OtherLinkKept(l, r, x.link); } else { assert ConceptView(st, t) == ConceptView(st, s); }
    }
    NoSameSnoc(l.updating, r, IsSymmetric(st.schema, link.0), link);
  }

  /** The applied edge already says it. */
  lemma SaidAlready(st: State, s: Session, link: EdgeEnds, id: nat, weight: int, properties: Props)
    requires AppliedLink(LinksOf(st, s), link) == Some(id) && Fresh(LinksOf(st, s), link) && id in st.relations
    requires Says(st.relations[id], weight, properties)
    ensures PutLink(st, s, st, s, link, weight, properties)
  {
    IdleKeeps(st, s, s);
  }

  /** A schema accepted while nothing waits. */
  lemma SchemaKeeps(st: State, s: Session, schema: Schema, t: Session)
    requires s.pending == [] && s.pendingRelations == [] && s.pendingUpdates == []
    requires t.pending == [] && t.pendingRelations == [] && t.pendingUpdates == []
    ensures Keeps(st, s, st.(schema := schema), t)
  {
    var b := st.(schema := schema);
    forall x ensures AspectKept(st, s, b, t, x) {
      if x.OfLink? && SymmetryGrows(st.schema, schema, x.link.0) {
        var a := AppliedLink(LinksOf(st, s), x.link);
        assert a.Some? ==> AppliedLink(LinksOf(b, t), x.link) == a;
      }
    }
  }

  /** With nothing pending: the applied edge of the link carries these values. */
  predicate LinkApplied(st: State, link: EdgeEnds, weight: int, properties: Props) {
    var a := AppliedLink(LinksOf(st, NEW_SESSION), link);
    a.Some? && a.value in st.relations && Says(st.relations[a.value], weight, properties)
  }

  // ---------- edges of the view ----------

  ghost predicate EdgesKept(a: State, s: Session, b: State, t: Session) { forall e :: AspectKept(a, s, b, t, OfEdge(e)) }

  /** The link is an edge, one way round or the other. */
  ghost predicate HasEither(l: Links, link: EdgeEnds) { HasEdge(l, link) || HasEdge(l, Reversed(link)) }

  lemma EdgeIsEither(l: Links, link: EdgeEnds)
    requires HasEdge(l, link)
    ensures HasEither(l, link)
  {
    hide HasEdge;
  }

  lemma EdgesByKeeps(a: State, s: Session, b: State, t: Session)
    requires Keeps(a, s, b, t)
    ensures EdgesKept(a, s, b, t)
  {
    hide AspectKept;
  }

  lemma EdgesOnward(a: State, s: Session, b: State, t: Session, c: State, u: Session)
    requires EdgesKept(a, s, b, t) && EdgesKept(b, t, c, u)
    ensures EdgesKept(a, s, c, u)
  {
    hide HasEdge;
    forall e ensures AspectKept(a, s, c, u, OfEdge(e)) { assert AspectKept(a, s, b, t, OfEdge(e)) && AspectKept(b, t, c, u, OfEdge(e)); }
  }

  lemma EdgesSame(a: State, s: Session, b: State, t: Session)
    requires LinksOf(b, t) == LinksOf(a, s)
    ensures EdgesKept(a, s, b, t)
  {
  }

  /** The view's edges only grew. */
  lemma EdgesGrown(a: State, s: Session, b: State, t: Session, more: seq<EdgeEnds>)
    requires WellFormed(a) && WellFormed(b) && LogEnds(EdgeView(b, t)) == LogEnds(EdgeView(a, s)) + more
    ensures EdgesKept(a, s, b, t) && forall e :: e in more ==> HasEdge(LinksOf(b, t), e)
  {
    hide WellFormed, HasEdge;
    forall e ensures AspectKept(a, s, b, t, OfEdge(e)) && (e in more ==> HasEdge(LinksOf(b, t), e)) {
      InEdges(a, s.pendingRelations, s.pendingUpdates, e);
      InEdges(b, t.pendingRelations, t.pendingUpdates, e);
    }
  }

  /** An edge of the view is the link, up to its direction when symmetric. */
  lemma LinkIsEdge(st: State, s: Session, symmetric: bool, link: EdgeEnds)
    requires WellFormed(st) && HasLink(symmetric, LogEnds(EdgeView(st, s)), link)
    ensures HasEither(LinksOf(st, s), link)
  {
    hide HasEdge;
    var ends := LogEnds(EdgeView(st, s));
    var i :| 0 <= i < |ends| && SameLink(symmetric, ends[i], link);
    InEdges(st, s.pendingRelations, s.pendingUpdates, ends[i]);
    assert ends[i] in ends;
  }
}
