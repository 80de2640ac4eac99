/** Deleting concepts with their edges: the cascade is journaled before
    anything leaves the graph (`delete_concepts`, crates/io/src/ingest.rs). */
module Deletion {
  import opened Collections
  import opened Errors
  import opened GraphState
  import opened StateLaws
  import opened IngestState
  import opened Engine

  /** The given ids that are live, in the order given. */
  function LiveOf(concepts: map<nat, Concept>, ids: seq<nat>): seq<nat> {
    if ids == [] then [] else
    var l := |ids| - 1;
    if ids[l] in concepts then LiveOf(concepts, ids[..l]) + [ids[l]] else LiveOf(concepts, ids[..l])
  }

  lemma {:induction false} LiveOfMembers(concepts: map<nat, Concept>, ids: seq<nat>)
    ensures forall x :: x in LiveOf(concepts, ids) <==> x in ids && x in concepts
    ensures NoDup(ids) ==> NoDup(LiveOf(concepts, ids))
  {
    if ids != [] {
      var l := |ids| - 1;
      LiveOfMembers(concepts, ids[..l]);
      assert ids == ids[..l] + [ids[l]];
      assert NoDup(ids) ==> ids[l] !in ids[..l];
    }
  }

  ghost predicate IncidentToAny(r: Relation, targets: seq<nat>) {
    exists i :: 0 <= i < |targets| && Incident(r, targets[i])
  }

  /** The edges around a list of concepts. */
  ghost function Around(st: State, targets: seq<nat>): set<nat> {
    set r | r in st.relations && IncidentToAny(st.relations[r], targets)
  }

  lemma AroundSnoc(st: State, targets: seq<nat>, id: nat)
    ensures Around(st, targets + [id]) == Around(st, targets) + IncidentSet(st.relations, id)
  {
    var more := targets + [id];
    forall r | r in st.relations
      ensures IncidentToAny(st.relations[r], more) <==> IncidentToAny(st.relations[r], targets) || Incident(st.relations[r], id)
    {
      if i :| 0 <= i < |targets| && Incident(st.relations[r], targets[i]) { assert Incident(st.relations[r], more[i]); }
      if Incident(st.relations[r], id) { assert Incident(st.relations[r], more[|targets|]); }
    }
  }

  function RelationDeletions(relations: map<nat, Relation>, ids: seq<nat>): seq<LogRecord> {
    seq(|ids|, i requires 0 <= i < |ids| =>
      DeleteRelationLog(ids[i], if ids[i] in relations then relations[ids[i]].rtype else ""))
  }

  /** Each concept's deletion, then those of the edges around it that no
      earlier concept took along. */
  ghost function DeletionLog(st: State, targets: seq<nat>): seq<LogRecord>
    requires forall x :: x in targets ==> x in st.concepts
  {
    if targets == [] then [] else
    var l := |targets| - 1;
    DeletionLog(st, targets[..l]) + [DeleteConceptLog(targets[l], st.concepts[targets[l]].ctype)]
      + RelationDeletions(st.relations, Minus(IncidentIds(st, targets[l]), Around(st, targets[..l])))
  }

  ghost function RemovedAll(st: State, targets: seq<nat>): State {
    if targets == [] then st else GraphState.RemoveConcept(RemovedAll(st, targets[..|targets| - 1]), targets[|targets| - 1]).0
  }

  /** The state without some concepts and some edges. */
  function Without(st: State, concepts: set<nat>, gone: set<nat>): State {
    st.(concepts := st.concepts - concepts, relations := st.relations - gone, order := Minus(st.order, gone))
  }

  lemma WithoutOneMore(st: State, concepts: set<nat>, gone: set<nat>, id: nat)
    requires id in st.concepts && id !in concepts
    ensures GraphState.RemoveConcept(Without(st, concepts, gone), id).0 ==
            Without(st, concepts + {id}, gone + IncidentSet(st.relations, id))
  {
    var mid := Without(st, concepts, gone);
    var more := IncidentSet(mid.relations, id);
    MinusTwice(st.order, gone, more);
    assert gone + more == gone + IncidentSet(st.relations, id);
    assert mid.concepts - {id} == st.concepts - (concepts + {id});
    assert mid.relations - more == st.relations - (gone + IncidentSet(st.relations, id));
  }

  lemma RemovedAllSnoc(st: State, before: seq<nat>, id: nat)
    ensures RemovedAll(st, before + [id]) == GraphState.RemoveConcept(RemovedAll(st, before), id).0
  {
    assert (before + [id])[..|before|] == before;
  }

  lemma RemovedOneMore(st: State, before: seq<nat>, id: nat)
    requires RemovedAll(st, before) == Without(st, Elems(before), Around(st, before))
    requires id in st.concepts && id !in Elems(before)
    ensures RemovedAll(st, before + [id]) == Without(st, Elems(before + [id]), Around(st, before + [id]))
  {
    calc {
      RemovedAll(st, before + [id]);
      { RemovedAllSnoc(st, before, id); }
      GraphState.RemoveConcept(Without(st, Elems(before), Around(st, before)), id).0;
      { WithoutOneMore(st, Elems(before), Around(st, before), id); }
      Without(st, Elems(before) + {id}, Around(st, before) + IncidentSet(st.relations, id));
      { ElemsSnoc(before, id); AroundSnoc(st, before, id); }
      Without(st, Elems(before + [id]), Around(st, before + [id]));
    }
  }

  /** Removing distinct live concepts one by one removes exactly them and the
      edges around them. */
  lemma {:induction false} RemovedAllExact(st: State, targets: seq<nat>)
    requires NoDup(targets) && forall x :: x in targets ==> x in st.concepts
    ensures RemovedAll(st, targets) == Without(st, Elems(targets), Around(st, targets))
  {
    if targets == [] {
      MinusNothing(st.order, {});
      assert Around(st, targets) == {} && st.relations - {} == st.relations && st.concepts - {} == st.concepts;
    } else {
      var l := |targets| - 1;
      assert targets == targets[..l] + [targets[l]];
      RemovedAllExact(st, targets[..l]);
      RemovedOneMore(st, targets[..l], targets[l]);
    }
  }

  lemma {:induction false} RemovedAllWellFormed(st: State, targets: seq<nat>)
    requires WellFormed(st)
    ensures WellFormed(RemovedAll(st, targets))
  {
    if targets != [] {
      var l := |targets| - 1;
      RemovedAllWellFormed(st, targets[..l]);
      RemovedWellFormed(RemovedAll(st, targets[..l]), targets[l]);
    }
  }

  // ---------- what the journal says was deleted ----------

  function DeletedConcepts(log: seq<LogRecord>): seq<nat> {
    if log == [] then [] else
    var r := log[|log| - 1];
    if r.DeleteConceptLog? then DeletedConcepts(log[..|log| - 1]) + [r.id] else DeletedConcepts(log[..|log| - 1])
  }

  function DeletedRelations(log: seq<LogRecord>): seq<nat> {
    if log == [] then [] else
    var r := log[|log| - 1];
    if r.DeleteRelationLog? then DeletedRelations(log[..|log| - 1]) + [r.id] else DeletedRelations(log[..|log| - 1])
  }

  lemma {:induction false} DeletedAppend(log: seq<LogRecord>, relations: map<nat, Relation>, ids: seq<nat>)
    ensures DeletedConcepts(log + RelationDeletions(relations, ids)) == DeletedConcepts(log)
    ensures DeletedRelations(log + RelationDeletions(relations, ids)) == DeletedRelations(log) + ids
  {
    var all := log + RelationDeletions(relations, ids);
    if ids == [] {
      assert all == log && DeletedRelations(log) + ids == DeletedRelations(log);
    } else {
      var l := |ids| - 1;
      assert all[..|all| - 1] == log + RelationDeletions(relations, ids[..l]);
      assert all[|all| - 1].DeleteRelationLog? && all[|all| - 1].id == ids[l];
      DeletedAppend(log, relations, ids[..l]);
      assert ids == ids[..l] + [ids[l]];
    }
  }

  ghost predicate NamesOnce(st: State, targets: seq<nat>, log: seq<LogRecord>) {
    && DeletedConcepts(log) == targets
    && NoDup(DeletedRelations(log)) && Elems(DeletedRelations(log)) == Around(st, targets)
  }

  lemma NamesOneMore(st: State, before: seq<nat>, id: nat, log: seq<LogRecord>, ctype: string)
    requires NamesOnce(st, before, log)
    ensures NamesOnce(st, before + [id], log + [DeleteConceptLog(id, ctype)]
      + RelationDeletions(st.relations, Minus(IncidentIds(st, id), Around(st, before))))
  {
    var taken := Minus(IncidentIds(st, id), Around(st, before));
    var head := log + [DeleteConceptLog(id, ctype)];
    assert head[..|log|] == log;
    DeletedAppend(head, st.relations, taken);
    TakenExact(st, before, id);
    AroundSnoc(st, before, id);
    JoinNoDup(DeletedRelations(log), taken);
  }

  lemma {:induction false} LogNamesOnce(st: State, targets: seq<nat>)
    requires forall x :: x in targets ==> x in st.concepts
    ensures NamesOnce(st, targets, DeletionLog(st, targets))
  {
    if targets == [] {
      assert Around(st, targets) == {};
    } else {
      var l := |targets| - 1;
      assert targets == targets[..l] + [targets[l]];
      LogNamesOnce(st, targets[..l]);
      NamesOneMore(st, targets[..l], targets[l], DeletionLog(st, targets[..l]), st.concepts[targets[l]].ctype);
    }
  }

  /** The journal names every deleted concept once, in order, and every edge
      that the removals take along once, and nothing else. */
  lemma DeletionExact(st: State, targets: seq<nat>)
    requires NoDup(targets) && forall x :: x in targets ==> x in st.concepts
    ensures DeletedConcepts(DeletionLog(st, targets)) == targets
    ensures NoDup(DeletedRelations(DeletionLog(st, targets)))
    ensures Elems(targets) == st.concepts.Keys - RemovedAll(st, targets).concepts.Keys
    ensures Elems(DeletedRelations(DeletionLog(st, targets))) == st.relations.Keys - RemovedAll(st, targets).relations.Keys
  {
    LogNamesOnce(st, targets);
    RemovedAllExact(st, targets);
  }

  lemma TakenExact(st: State, before: seq<nat>, id: nat)
    ensures var taken := Minus(IncidentIds(st, id), Around(st, before));
      NoDup(taken) && Elems(taken) == IncidentSet(st.relations, id) - Around(st, before)
  {
    IncidentIdsExact(st, id);
    MinusNoDup(IncidentIds(st, id), Around(st, before));
    MinusMembers(IncidentIds(st, id), Around(st, before));
  }

  lemma JournaledDelete(log: seq<LogRecord>, id: nat, ctype: string, more: seq<LogRecord>)
    requires forall i :: 0 <= i < |more| ==> !IsConceptRecord(more[i])
    ensures Journaled(log + [DeleteConceptLog(id, ctype)] + more) == Journaled(log) - {id}
  {
    var head := log + [DeleteConceptLog(id, ctype)];
    assert head[..|log|] == log;
    JournaledOthers(head, more);
  }

  lemma LessOne<V>(m: map<nat, V>, before: seq<nat>, id: nat)
    ensures m - Elems(before) - {id} == m - Elems(before + [id])
  {
  }

  lemma DeletionLogSnoc(st: State, before: seq<nat>, id: nat)
    requires id in st.concepts && forall x :: x in before ==> x in st.concepts
    ensures DeletionLog(st, before + [id]) == DeletionLog(st, before) + [DeleteConceptLog(id, st.concepts[id].ctype)]
      + RelationDeletions(st.relations, Minus(IncidentIds(st, id), Around(st, before)))
  {
    assert (before + [id])[..|before|] == before;
  }

  /** Replaying the deletions forgets exactly the deleted concepts. */
  lemma {:induction false} JournaledDeletions(log: seq<LogRecord>, st: State, targets: seq<nat>)
    requires forall x :: x in targets ==> x in st.concepts
    ensures Journaled(log + DeletionLog(st, targets)) == Journaled(log) - Elems(targets)
  {
    if targets == [] {
      assert log + DeletionLog(st, targets) == log;
      assert Journaled(log) - {} == Journaled(log);
    } else {
      var l := |targets| - 1;
      var before, id := targets[..l], targets[l];
      var head := [DeleteConceptLog(id, st.concepts[id].ctype)];
      var taken := RelationDeletions(st.relations, Minus(IncidentIds(st, id), Around(st, before)));
      assert targets == before + [id];
      DeletionLogSnoc(st, before, id);
      ConcatAssoc(log, DeletionLog(st, before), head);
      ConcatAssoc(log, DeletionLog(st, before) + head, taken);
      JournaledDeletions(log, st, before);
      JournaledDelete(log + DeletionLog(st, before), id, st.concepts[id].ctype, taken);
      LessOne(Journaled(log), before, id);
    }
  }

  // ---------- the operation ----------

  /** The deletion records of the edges not yet seen. */
  method NewDeletions(relations: map<nat, Relation>, cascade: seq<nat>, seen: set<nat>)
    returns (records: seq<LogRecord>, after: set<nat>)
    requires NoDup(cascade) && forall x :: x in cascade ==> x in relations
    ensures records == RelationDeletions(relations, Minus(cascade, seen)) && after == seen + Elems(cascade)
  {
    records, after := [], seen;
    for i := 0 to |cascade|
      invariant records == RelationDeletions(relations, Minus(cascade[..i], seen)) && after == seen + Elems(cascade[..i])
    {
      var rid := cascade[i];
      assert cascade[..i + 1] == cascade[..i] + [rid];
      MinusAppend(cascade[..i], rid, seen);
      assert rid !in cascade[..i];
      if rid !in after {
        after := after + {rid};
        records := records + [DeleteRelationLog(rid, relations[rid].rtype)];
      }
    }
    assert cascade[..|cascade|] == cascade;
  }

  /** Collect the journal records; unknown ids are skipped. */
  method CollectDeletions(graph: OntologyGraph, ids: seq<nat>)
    returns (records: seq<LogRecord>, targets: seq<nat>, seen: set<nat>)
    requires graph.Valid()
    ensures targets == LiveOf(graph.st.concepts, ids) && forall x :: x in targets ==> x in graph.st.concepts
    ensures records == DeletionLog(graph.st, targets) && seen == Around(graph.st, targets)
  {
    records, targets, seen := [], [], {};
    assert Around(graph.st, []) == {};
    for i := 0 to |ids|
      invariant targets == LiveOf(graph.st.concepts, ids[..i]) && forall x :: x in targets ==> x in graph.st.concepts
      invariant records == DeletionLog(graph.st, targets) && seen == Around(graph.st, targets)
    {
      assert ids[..i + 1][..i] == ids[..i];
      var cascade := graph.IncidentRelationIds(ids[i]);
      if cascade.Ok? {
        IncidentIdsExact(graph.st, ids[i]);
        AroundSnoc(graph.st, targets, ids[i]);
        assert (targets + [ids[i]])[..|targets|] == targets;
        var more, after := NewDeletions(graph.st.relations, cascade.value, seen);
        records := records + [DeleteConceptLog(ids[i], graph.st.concepts[ids[i]].ctype)] + more;
        targets := targets + [ids[i]];
        seen := after;
      }
    }
    assert ids[..|ids|] == ids;
  }

  /** The targets before the first repeated one are gone, and no others. */
  ghost predicate HalfRemoved(st: State, targets: seq<nat>, after: State)
    requires forall x :: x in targets ==> x in st.concepts
  {
    exists k: nat :: k < |targets| && NoDup(targets[..k]) && targets[k] in targets[..k] && after == RemovedAll(st, targets[..k])
  }

  lemma HalfAt(st: State, targets: seq<nat>, k: nat)
    requires k < |targets| && NoDup(targets[..k]) && forall x :: x in targets ==> x in st.concepts
    requires !NoDup(targets[..k + 1])
    ensures HalfRemoved(st, targets, RemovedAll(st, targets[..k]))
  {
    hide RemovedAll;
    assert targets[..k + 1] == targets[..k] + [targets[k]];
    if targets[k] !in targets[..k] { JoinNoDup(targets[..k], [targets[k]]); }
    assert targets[k] in targets[..k];
  }

  /** Remove the targets one by one; refused at a target given twice. */
  method RemoveTargets(graph: OntologyGraph, targets: seq<nat>) returns (r: Result<()>)
    requires graph.Valid() && forall x :: x in targets ==> x in graph.st.concepts
    modifies graph`st, graph`ix
    ensures graph.Valid() && (r.Ok? <==> NoDup(targets))
    ensures r.Ok? ==> graph.st == RemovedAll(old(graph.st), targets)
    ensures r.Err? ==> HalfRemoved(old(graph.st), targets, graph.st)
  {
    for i := 0 to |targets|
      invariant graph.Valid() && NoDup(targets[..i]) && graph.st == RemovedAll(old(graph.st), targets[..i])
    {
      StillLive(old(graph.st), targets, i);
      var removed := graph.RemoveConcept(targets[i]);
      if removed.Err? {
        HalfAt(old(graph.st), targets, i);
        return Err(removed.error);
      }
    }
    assert targets[..|targets|] == targets;
    return Ok(());
  }

  lemma StillLive(st: State, targets: seq<nat>, i: nat)
    requires i < |targets| && NoDup(targets[..i]) && forall x :: x in targets ==> x in st.concepts
    ensures targets[i] in RemovedAll(st, targets[..i]).concepts <==> NoDup(targets[..i + 1])
    ensures NoDup(targets) ==> NoDup(targets[..i + 1])
    ensures RemovedAll(st, targets[..i + 1]) == GraphState.RemoveConcept(RemovedAll(st, targets[..i]), targets[i]).0
  {
    RemovedAllExact(st, targets[..i]);
    assert targets[..i + 1] == targets[..i] + [targets[i]];
    RemovedAllSnoc(st, targets[..i], targets[i]);
    if targets[i] in targets[..i] { RefusedIsRepeated(targets[..i + 1], i); }
  }

  lemma RefusedIsRepeated(targets: seq<nat>, i: nat)
    requires i < |targets| && targets[i] in targets[..i]
    ensures !NoDup(targets)
  {
    var j :| 0 <= j < i && targets[..i][j] == targets[i];
    assert targets[j] == targets[i];
  }

  /** One barrier, unless there is nothing to journal. */
  method JournalAll(store: LogStore, records: seq<LogRecord>) returns (ok: bool)
    modifies store
    ensures store.log == if ok then old(store.log) + records else old(store.log)
    ensures old(store.outcomes) == [] ==> ok
  {
    ok := true;
    if records != [] { ok := store.Append(records); }
  }

  /** `delete_concepts`. On success the journal has grown by exactly the
      cascade that left the graph; a store failure changes nothing. When a live
      id is given twice it fails half-way: the whole cascade is journaled, and
      only the targets before the repeated one have left the graph. */
  method DeleteConcepts(graph: OntologyGraph, store: LogStore, ids: seq<nat>)
    returns (r: Ingested<(nat, nat)>, ghost targets: seq<nat>)
    requires graph.Valid()
    modifies graph`st, graph`ix, store
    ensures graph.Valid() && targets == LiveOf(old(graph.st).concepts, ids)
    ensures forall x :: x in targets ==> x in old(graph.st).concepts
    ensures r.Done? ==> NoDup(targets) && graph.st == RemovedAll(old(graph.st), targets)
    ensures r.Done? ==> store.log == old(store.log) + DeletionLog(old(graph.st), targets)
    ensures r.Done? ==> r.value == (|targets|, |old(graph.st).relations| - |graph.st.relations|)
    ensures r.Failed? ==> if r.error.StoreFailure? then graph.st == old(graph.st) && store.log == old(store.log) else !NoDup(targets)
    ensures r.Failed? && !r.error.StoreFailure? ==>
      HalfRemoved(old(graph.st), targets, graph.st) && store.log == old(store.log) + DeletionLog(old(graph.st), targets)
    ensures r.Failed? ==> if r.error.StoreFailure? then old(store.outcomes) != [] else r.error.GraphFailure?
  {
    var records, live, seen := CollectDeletions(graph, ids);
    targets := live;
    var ok := JournalAll(store, records);
    if !ok { return Failed(StoreFailure), targets; }
    var removed := RemoveTargets(graph, live);
    if removed.Err? { return Failed(GraphFailure(removed.error)), targets; }
    CountGone(old(graph.st), live);
    return Done((|live|, |seen|)), targets;
  }

  lemma CountGone(st: State, targets: seq<nat>)
    requires NoDup(targets) && forall x :: x in targets ==> x in st.concepts
    ensures |Around(st, targets)| == |st.relations| - |RemovedAll(st, targets).relations|
  {
    RemovedAllExact(st, targets);
    var left := RemovedAll(st, targets).relations;
    assert left.Keys == st.relations.Keys - Around(st, targets);
    assert |left| == |left.Keys| && |st.relations| == |st.relations.Keys|;
  }
}
