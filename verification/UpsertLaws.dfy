/** Refreshing a relation that is already there: applied, or still pending. */
module UpsertLaws {
  import opened Collections
  import opened OntologySchema
  import opened GraphState
  import opened BatchLaws
  import opened IngestState
  import opened SessionLaws

  type EdgeEnds = (string, nat, nat)

  function EndsOfEdge(e: Edge): EdgeEnds { (e.rtype, e.source, e.target) }

  /** The edges without weights and properties. */
  function LogEnds(log: seq<Edge>): seq<EdgeEnds> {
    seq(|log|, i requires 0 <= i < |log| => EndsOfEdge(log[i]))
  }

  /** For a symmetric type either orientation is the same edge. */
  predicate SameLink(symmetric: bool, e: EdgeEnds, link: EdgeEnds) {
    e.0 == link.0 && ((e.1 == link.1 && e.2 == link.2) || (symmetric && e.1 == link.2 && e.2 == link.1))
  }

  predicate IsSymmetric(schema: Schema, rtype: string) {
    rtype in schema.relationTypes && schema.relationTypes[rtype].symmetric
  }

  ghost predicate HasLink(symmetric: bool, ends: seq<EdgeEnds>, link: EdgeEnds) {
    exists i :: 0 <= i < |ends| && SameLink(symmetric, ends[i], link)
  }

  /** The first relation of a batch that is this link; the length if none. */
  method IndexOfLink(batch: seq<Relation>, symmetric: bool, link: EdgeEnds) returns (i: nat)
    ensures i <= |batch| && (i < |batch| ==> SameLink(symmetric, EndsOf(batch[i]), link))
    ensures forall j :: 0 <= j < i ==> !SameLink(symmetric, EndsOf(batch[j]), link)
  {
    i := 0;
    while i < |batch| && !SameLink(symmetric, EndsOf(batch[i]), link)
      invariant i <= |batch| && forall j :: 0 <= j < i ==> !SameLink(symmetric, EndsOf(batch[j]), link)
    {
      i := i + 1;
    }
  }

  function Reset(r: Relation, weight: int, properties: Props): Relation {
    r.(weight := weight, properties := properties)
  }

  lemma LogEndsConcat(a: seq<Edge>, b: seq<Edge>)
    ensures LogEnds(a + b) == LogEnds(a) + LogEnds(b)
  {
  }

  lemma {:induction false} EffectsEnds(schema: Schema, a: seq<Relation>, b: seq<Relation>)
    requires |a| == |b| && forall i :: 0 <= i < |a| ==> EndsOf(a[i]) == EndsOf(b[i])
    ensures LogEnds(EffectsAll(schema, a)) == LogEnds(EffectsAll(schema, b))
  {
    if a != [] {
      var l := |a| - 1;
      EffectsEnds(schema, a[..l], b[..l]);
      assert EndsOf(a[l]) == EndsOf(b[l]);
      LogEndsConcat(EffectsAll(schema, a[..l]), Effects(schema, a[l]));
      LogEndsConcat(EffectsAll(schema, b[..l]), Effects(schema, b[l]));
    }
  }

  /** A pending relation rewritten in place: no edge moves. */
  lemma ResetPendingOk(st: State, log: seq<LogRecord>, s: Session, i: nat, weight: int, properties: Props)
    requires SessionOk(st, log, s) && i < |s.pendingRelations|
    ensures var s1 := s.(pendingRelations := s.pendingRelations[i := Reset(s.pendingRelations[i], weight, properties)]);
      SessionOk(st, log, s1) && LogEnds(EdgeView(st, s1)) == LogEnds(EdgeView(st, s))
  {
    var after := s.pendingRelations[i := Reset(s.pendingRelations[i], weight, properties)];
    ResetFlushable(st, s.pendingRelations, i, weight, properties);
    ResetDue(st, s.pendingRelations, i, weight, properties);
    EffectsEnds(st.schema, s.pendingRelations, after);
    LogEndsConcat(Edges(st), EffectsAll(st.schema, s.pendingRelations));
    LogEndsConcat(Edges(st), EffectsAll(st.schema, after));
  }

  lemma HasByEnds(a: seq<Edge>, b: seq<Edge>, source: nat, target: nat, t: string)
    requires LogEnds(a) == LogEnds(b)
    ensures LogHasOut(a, source, t) ==> LogHasOut(b, source, t)
    ensures LogHasIn(a, target, t) ==> LogHasIn(b, target, t)
  {
    if i :| 0 <= i < |a| && LeavesAs(a[i], source, t) {
      assert LogEnds(a)[i] == LogEnds(b)[i];
      assert LeavesAs(b[i], source, t);
    }
    if i :| 0 <= i < |a| && EntersAs(a[i], target, t) {
      assert LogEnds(a)[i] == LogEnds(b)[i];
      assert EntersAs(b[i], target, t);
    }
  }

  lemma ResetDue(st: State, pending: seq<Relation>, i: nat, weight: int, properties: Props)
    requires RelationsDue(st, pending) && i < |pending|
    ensures RelationsDue(st, pending[i := Reset(pending[i], weight, properties)])
  {
    var after := pending[i := Reset(pending[i], weight, properties)];
    forall k | 0 <= k < |after| ensures DueAt(st, after, k) {
      assert DueAt(st, pending, k);
      assert EndsOf(after[k]) == EndsOf(pending[k]);
      EffectsEnds(st.schema, after[..k], pending[..k]);
      HasByEnds(EffectsAll(st.schema, after[..k]), EffectsAll(st.schema, pending[..k]), after[k].source, after[k].target, after[k].rtype);
    }
  }

  lemma ResetFlushable(st: State, pending: seq<Relation>, i: nat, weight: int, properties: Props)
    requires RelationsPending(st, pending) && i < |pending|
    ensures RelationsPending(st, pending[i := Reset(pending[i], weight, properties)])
  {
    var after := pending[i := Reset(pending[i], weight, properties)];
    forall k | 0 <= k < |after| ensures Flushable(st, after[k]) { assert Flushable(st, pending[k]); }
  }

  /** Applied updates move no edge. */
  lemma SameShapeEnds(a: State, b: State)
    requires WellOrdered(a) && WellOrdered(b) && SameShape(a, b) && b.order == a.order
    ensures LogEnds(Edges(b)) == LogEnds(Edges(a))
  {
    forall i | 0 <= i < |a.order| ensures LogEnds(Edges(b))[i] == LogEnds(Edges(a))[i] {
      assert a.order[i] in a.relations;
      assert EndsOf(b.relations[a.order[i]]) == EndsOf(a.relations[a.order[i]]);
    }
  }

  lemma NoneBetween(st: State, link: EdgeEnds)
    requires WellFormed(st) && Between(st, link.1, link.2, link.0).None?
    ensures forall i :: 0 <= i < |Edges(st)| ==> EndsOfEdge(Edges(st)[i]) != link
  {
    SelectMembers(st.relations, st.order, Sel(true, link.1, Some(link.0)));
    forall i | 0 <= i < |Edges(st)| ensures EndsOfEdge(Edges(st)[i]) != link {
      assert st.order[i] in st.relations;
    }
  }

  lemma SomeBetween(st: State, link: EdgeEnds)
    requires WellFormed(st) && Between(st, link.1, link.2, link.0).Some?
    ensures var id := Between(st, link.1, link.2, link.0).value;
      id in st.relations && EndsOf(st.relations[id]) == link
    ensures exists i :: 0 <= i < |Edges(st)| && EndsOfEdge(Edges(st)[i]) == link
  {
    SelectMembers(st.relations, st.order, Sel(true, link.1, Some(link.0)));
    var id := Between(st, link.1, link.2, link.0).value;
    var i :| 0 <= i < |st.order| && st.order[i] == id;
    assert EndsOfEdge(Edges(st)[i]) == link;
  }

  lemma {:induction false} NoLinkPending(schema: Schema, pending: seq<Relation>, link: EdgeEnds)
    requires forall i :: 0 <= i < |pending| ==> !SameLink(IsSymmetric(schema, link.0), EndsOf(pending[i]), link)
    ensures !HasLink(IsSymmetric(schema, link.0), LogEnds(EffectsAll(schema, pending)), link)
  {
    if pending != [] {
      var l := |pending| - 1;
      var before, last := EffectsAll(schema, pending[..l]), Effects(schema, pending[l]);
      NoLinkPending(schema, pending[..l], link);
      LogEndsConcat(before, last);
      assert !SameLink(IsSymmetric(schema, link.0), EndsOf(pending[l]), link);
    }
  }

  /** No pending relation and no applied edge is the link: the view has none. */
  lemma NoLink(st: State, s: Session, link: EdgeEnds)
    requires WellFormed(st)
    requires forall i :: 0 <= i < |s.pendingRelations| ==> !SameLink(IsSymmetric(st.schema, link.0), EndsOf(s.pendingRelations[i]), link)
    requires Between(st, link.1, link.2, link.0).None?
    requires IsSymmetric(st.schema, link.0) ==> Between(st, link.2, link.1, link.0).None?
    ensures !HasLink(IsSymmetric(st.schema, link.0), LogEnds(EdgeView(st, s)), link)
  {
    hide EffectsAll, Between;
    NoLinkPending(st.schema, s.pendingRelations, link);
    LogEndsConcat(Edges(st), EffectsAll(st.schema, s.pendingRelations));
    NoneBetween(st, link);
    if IsSymmetric(st.schema, link.0) { NoneBetween(st, (link.0, link.2, link.1)); }
    var a, b := LogEnds(Edges(st)), LogEnds(EffectsAll(st.schema, s.pendingRelations));
    forall i | 0 <= i < |a + b| ensures !SameLink(IsSymmetric(st.schema, link.0), (a + b)[i], link) {
      if i < |a| { assert (a + b)[i] == EndsOfEdge(Edges(st)[i]); } else { assert (a + b)[i] == b[i - |a|]; }
    }
  }

  /** Some relation of the batch is the link and carries these values. */
  ghost predicate Carried(batch: seq<Relation>, symmetric: bool, link: EdgeEnds, weight: int, properties: Props) {
    exists i :: 0 <= i < |batch| && SameLink(symmetric, EndsOf(batch[i]), link)
                && batch[i].weight == weight && batch[i].properties == properties
  }

  lemma ResetCarried(batch: seq<Relation>, i: nat, symmetric: bool, link: EdgeEnds, weight: int, properties: Props)
    requires i < |batch| && SameLink(symmetric, EndsOf(batch[i]), link)
    ensures Carried(batch[i := Reset(batch[i], weight, properties)], symmetric, link, weight, properties)
  {
    var after := batch[i := Reset(batch[i], weight, properties)];
    assert EndsOf(after[i]) == EndsOf(batch[i]);
  }

  lemma PendingLink(st: State, s: Session, i: nat, symmetric: bool, link: EdgeEnds)
    requires WellFormed(st) && i < |s.pendingRelations| && SameLink(symmetric, EndsOf(s.pendingRelations[i]), link)
    ensures HasLink(symmetric, LogEnds(EdgeView(st, s)), link)
  {
    var j := InEffects(st.schema, s.pendingRelations, i);
    assert EdgeView(st, s)[|Edges(st)| + j] == EffectsAll(st.schema, s.pendingRelations)[j];
    assert SameLink(symmetric, LogEnds(EdgeView(st, s))[|Edges(st)| + j], link);
  }

  lemma {:induction false} InEffects(schema: Schema, rels: seq<Relation>, i: nat) returns (j: nat)
    requires i < |rels|
    ensures j < |EffectsAll(schema, rels)| && EndsOfEdge(EffectsAll(schema, rels)[j]) == EndsOf(rels[i])
  {
    var l := |rels| - 1;
    if i < l {
      j := InEffects(schema, rels[..l], i);
      assert rels[..l][i] == rels[i];
    } else {
      j := |EffectsAll(schema, rels[..l])|;
    }
  }

  /** A live relation shows in the view. */
  lemma LiveLink(st: State, s: Session, id: nat, symmetric: bool, link: EdgeEnds)
    requires WellFormed(st) && id in st.relations && SameLink(symmetric, EndsOf(st.relations[id]), link)
    ensures HasLink(symmetric, LogEnds(EdgeView(st, s)), link)
  {
    var j :| 0 <= j < |st.order| && st.order[j] == id;
    assert EdgeView(st, s)[j] == Edges(st)[j];
    assert SameLink(symmetric, LogEnds(EdgeView(st, s))[j], link);
  }

  lemma ResetUpdatesOk(st: State, log: seq<LogRecord>, s: Session, i: nat, weight: int, properties: Props)
    requires SessionOk(st, log, s) && i < |s.pendingUpdates|
    ensures SessionOk(st, log, s.(pendingUpdates := s.pendingUpdates[i := Reset(s.pendingUpdates[i], weight, properties)]))
  {
    var after := s.pendingUpdates[i := Reset(s.pendingUpdates[i], weight, properties)];
    forall k | 0 <= k < |after|
      ensures after[k].id in st.relations && EndsOf(st.relations[after[k].id]) == EndsOf(after[k])
    {
      assert s.pendingUpdates[k].id in st.relations;
    }
  }

  lemma MoreUpdatesOk(st: State, log: seq<LogRecord>, s: Session, id: nat, weight: int, properties: Props)
    requires SessionOk(st, log, s) && id in st.relations
    ensures SessionOk(st, log, s.(pendingUpdates := s.pendingUpdates + [Reset(st.relations[id], weight, properties)]))
  {
    var after := s.pendingUpdates + [Reset(st.relations[id], weight, properties)];
    forall k | 0 <= k < |after|
      ensures after[k].id in st.relations && EndsOf(st.relations[after[k].id]) == EndsOf(after[k])
    {
      if k < |s.pendingUpdates| { assert after[k] == s.pendingUpdates[k]; }
    }
  }

  /** The link is applied under `id`, and an update waits unless it already
      carries these values. */
  ghost predicate Asked(st: State, before: seq<Relation>, after: seq<Relation>, id: nat, symmetric: bool, link: EdgeEnds,
                        weight: int, properties: Props) {
    && id in st.relations && SameLink(symmetric, EndsOf(st.relations[id]), link)
    && (if Reset(st.relations[id], weight, properties) == st.relations[id] then after == before
        else after == before + [Reset(st.relations[id], weight, properties)])
  }
}
