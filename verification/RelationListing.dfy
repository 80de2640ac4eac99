/** The listing of relations (crates/graph/src/graph.rs): whichever adjacency
    list the planner picks, the page is the one a scan of the id-ordered set
    gives, and following the cursors visits every match once. */
module RelationListing {
  import opened Collections
  import opened GraphState
  import opened StateLaws
  import opened Indexes
  import opened Consistency
  import opened Engine
  import opened Listing

  datatype RelationQuery = RelationQuery(source: Option<nat>, target: Option<nat>, rtype: Option<string>)

  predicate Fits(q: RelationQuery, r: Relation) {
    && (q.source.Some? ==> r.source == q.source.value) && (q.target.Some? ==> r.target == q.target.value)
    && (q.rtype.Some? ==> r.rtype == q.rtype.value)
  }

  function Fitting(st: State, q: RelationQuery, after: Option<nat>): set<nat> {
    set id | id in st.relations && Fits(q, st.relations[id]) && (after.Some? ==> id > after.value)
  }

  /** What a plain scan lists: the matching ids above the cursor, ascending. */
  ghost function RelationsAfter(st: State, q: RelationQuery, after: Option<nat>): seq<nat> {
    NatOrder();
    Ascending(NatLt, Fitting(st, q, after))
  }

  // ---------- one page out of an ordered list of ids ----------

  function KeepFits(st: State, q: RelationQuery, ids: seq<nat>): seq<nat> {
    if ids == [] then [] else
    var l := |ids| - 1;
    if ids[l] in st.relations && Fits(q, st.relations[ids[l]]) then KeepFits(st, q, ids[..l]) + [ids[l]] else KeepFits(st, q, ids[..l])
  }

  lemma {:induction false} KeepFitsMembers(st: State, q: RelationQuery, ids: seq<nat>)
    ensures forall x :: x in KeepFits(st, q, ids) <==> x in ids && x in st.relations && Fits(q, st.relations[x])
  {
    if ids != [] {
      var l := |ids| - 1;
      KeepFitsMembers(st, q, ids[..l]);
      assert ids == ids[..l] + [ids[l]];
    }
  }

  lemma {:induction false} KeepFitsSorted(st: State, q: RelationQuery, ids: seq<nat>)
    requires Sorted(NatLt, ids)
    ensures Sorted(NatLt, KeepFits(st, q, ids))
  {
    if ids != [] {
      var l := |ids| - 1;
      KeepFitsSorted(st, q, ids[..l]);
      KeepFitsMembers(st, q, ids[..l]);
      forall x | x in ids[..l] ensures NatLt(x, ids[l]) {
        var k :| 0 <= k < l && ids[..l][k] == x;
        assert ids[k] == x;
      }
    }
  }

  lemma {:induction false} KeepFitsPrefix(st: State, q: RelationQuery, ids: seq<nat>, i: nat)
    requires i <= |ids|
    ensures KeepFits(st, q, ids[..i]) <= KeepFits(st, q, ids)
    decreases |ids|
  {
    if i == |ids| {
      assert ids[..i] == ids;
    } else {
      var l := |ids| - 1;
      assert ids[..l][..i] == ids[..i];
      KeepFitsPrefix(st, q, ids[..l], i);
    }
  }

  /** Filter, rank, skip, fill, and stop when full. */
  method ConsumeIds(st: State, q: RelationQuery, ids: seq<nat>, offset: nat, limit: nat, track: bool)
    returns (total: nat, page: seq<nat>)
    ensures page == Slice(KeepFits(st, q, ids), offset, limit)
    ensures total == Counted(|KeepFits(st, q, ids)|, offset, limit, track)
  {
    total, page := 0, [];
    var i := 0;
    while i < |ids|
      invariant i <= |ids| && total == |KeepFits(st, q, ids[..i])| && page == Slice(KeepFits(st, q, ids[..i]), offset, limit)
      invariant track || total < (if limit == 0 then 1 else offset + limit)
    {
      ghost var kept := KeepFits(st, q, ids[..i]);
      assert ids[..i + 1][..i] == ids[..i];
      var id := ids[i];
      i := i + 1;
      if id in st.relations && Fits(q, st.relations[id]) {
        SliceSnoc(kept, id, offset, limit);
        if total >= offset && |page| < limit { page := page + [id]; }
        total := total + 1;
        if |page| >= limit && !track {
          KeepFitsPrefix(st, q, ids, i);
          SlicePrefix(KeepFits(st, q, ids[..i]), KeepFits(st, q, ids), offset, limit);
          return;
        }
      }
    }
    assert ids[..|ids|] == ids;
  }

  // ---------- the planner ----------

  function TypedBucket(a: TypedAdj, node: Option<nat>, rtype: Option<string>): Option<seq<nat>> {
    if node.Some? && rtype.Some? && node.value in a && rtype.value in a[node.value] then Some(a[node.value][rtype.value]) else None
  }

  /** The list to go through: a typed bucket if there is one, else the shorter
      of the two adjacency lists. */
  method Plan(g: OntologyGraph, q: RelationQuery) returns (ids: seq<nat>)
    requires g.Valid() && (q.source.Some? || q.target.Some?)
    ensures forall id :: id in g.st.relations && Fits(q, g.st.relations[id]) ==> id in ids
  {
    ListsComplete(g.st, g.ix, g.bulk, q);
    var bySource, byTarget := TypedBucket(g.ix.outTyped, q.source, q.rtype), TypedBucket(g.ix.inTyped, q.target, q.rtype);
    if bySource.Some? && byTarget.Some? {
      return if |bySource.value| <= |byTarget.value| then bySource.value else byTarget.value;
    }
    if bySource.Some? { return bySource.value; }
    if byTarget.Some? { return byTarget.value; }
    if q.source.Some? && q.target.Some? {
      var out, inn := Get(g.ix.outAdj, q.source.value), Get(g.ix.inAdj, q.target.value);
      return if |out| <= |inn| then out else inn;
    }
    return if q.source.Some? then Get(g.ix.outAdj, q.source.value) else Get(g.ix.inAdj, q.target.value);
  }

  /** Each list the planner may pick holds every match. */
  lemma ListsComplete(st: State, ix: Index, bulk: bool, q: RelationQuery)
    requires Consistent(st, ix, bulk)
    ensures q.source.Some? ==> Covers(st, q, Get(ix.outAdj, q.source.value))
    ensures q.target.Some? ==> Covers(st, q, Get(ix.inAdj, q.target.value))
    ensures TypedBucket(ix.outTyped, q.source, q.rtype).Some? ==> Covers(st, q, TypedBucket(ix.outTyped, q.source, q.rtype).value)
    ensures TypedBucket(ix.inTyped, q.target, q.rtype).Some? ==> Covers(st, q, TypedBucket(ix.inTyped, q.target, q.rtype).value)
  {
    if q.source.Some? { EndComplete(st, ix, bulk, q, true, q.source.value); }
    if q.target.Some? { EndComplete(st, ix, bulk, q, false, q.target.value); }
  }

  predicate Covers(st: State, q: RelationQuery, ids: seq<nat>) {
    forall id :: id in st.relations && Fits(q, st.relations[id]) ==> id in ids
  }

  lemma EndComplete(st: State, ix: Index, bulk: bool, q: RelationQuery, outgoing: bool, n: nat)
    requires Consistent(st, ix, bulk) && (if outgoing then q.source else q.target) == Some(n)
    ensures Covers(st, q, Get(if outgoing then ix.outAdj else ix.inAdj, n))
    ensures q.rtype.Some? ==> Covers(st, q, GetTyped(if outgoing then ix.outTyped else ix.inTyped, n, q.rtype.value))
  {
    SelectMembers(st.relations, st.order, Sel(outgoing, n, None));
    if q.rtype.Some? {
      TypedIsSelect(st, ix, bulk, n, q.rtype.value);
      SelectMembers(st.relations, st.order, Sel(outgoing, n, q.rtype));
    }
  }

  // ---------- pages ----------

  function Edges(relations: map<nat, Relation>, ids: seq<nat>): seq<Relation>
    requires forall id :: id in ids ==> id in relations
  {
    seq(|ids|, i requires 0 <= i < |ids| => relations[ids[i]])
  }

  lemma FittingListed(st: State, q: RelationQuery, after: Option<nat>, ids: seq<nat>)
    requires Sorted(NatLt, ids) && forall id :: id in Fitting(st, q, after) ==> id in ids
    requires forall id :: id in ids ==> after.Some? ==> id > after.value
    ensures KeepFits(st, q, ids) == RelationsAfter(st, q, after)
  {
    NatOrder();
    KeepFitsMembers(st, q, ids);
    KeepFitsSorted(st, q, ids);
    AscendingUnique(NatLt, Fitting(st, q, after), KeepFits(st, q, ids));
  }

  lemma RelationsLive(st: State, q: RelationQuery, after: Option<nat>)
    ensures forall id :: id in RelationsAfter(st, q, after) <==> id in Fitting(st, q, after)
  {
    NatOrder();
    AscendingMembers(NatLt, Fitting(st, q, after));
  }

  /** `list_relations_page_uncached`: the planner's list, or the id-ordered
      set, give one and the same page. The adjacency lists are also exact
      during a bulk load. */
  method ListRelationsPage(g: OntologyGraph, q: RelationQuery, offset: nat, limit: nat, track: bool, after: Option<nat>)
    returns (total: nat, page: seq<Relation>)
    requires g.Valid() && (g.bulk ==> q.source.Some? || q.target.Some?)
    ensures forall id :: id in RelationsAfter(g.st, q, after) ==> id in g.st.relations
    ensures var list := RelationsAfter(g.st, q, after);
      page == Slice(Edges(g.st.relations, list), offset, limit) && total == Counted(|list|, offset, limit, track)
  {
    NatOrder();
    RelationsLive(g.st, q, after);
    var pool: set<nat>;
    if q.source.Some? || q.target.Some? {
      var planned := Plan(g, q);
      pool := Elems(planned);
    } else {
      pool := g.ix.relSorted;
    }
    var ids := InOrder(NatLt, set id: nat | id in pool && (after.Some? ==> id > after.value));
    FittingListed(g.st, q, after, ids);
    var kept;
    total, kept := ConsumeIds(g.st, q, ids, offset, limit, track);
    SliceEdges(g.st.relations, RelationsAfter(g.st, q, after), offset, limit);
    page := Edges(g.st.relations, kept);
  }

  lemma SliceEdges(relations: map<nat, Relation>, ids: seq<nat>, offset: nat, limit: nat)
    requires forall id :: id in ids ==> id in relations
    ensures forall id :: id in Slice(ids, offset, limit) ==> id in ids
    ensures Edges(relations, Slice(ids, offset, limit)) == Slice(Edges(relations, ids), offset, limit)
  {
  }

  // ---------- cursors ----------

  method ListRelationsAfter(g: OntologyGraph, q: RelationQuery, after: Option<nat>, limit: nat)
    returns (page: seq<Relation>, next: Option<nat>)
    requires g.Valid() && (g.bulk ==> q.source.Some? || q.target.Some?)
    ensures forall id :: id in RelationsAfter(g.st, q, after) ==> id in g.st.relations
    ensures page == Slice(Edges(g.st.relations, RelationsAfter(g.st, q, after)), 0, limit)
    ensures next == if 0 < limit == |page| then Some(page[limit - 1].id) else None
  {
    var _, rows := ListRelationsPage(g, q, 0, limit, false, after);
    page := rows;
    next := if 0 < |page| == limit then Some(page[|page| - 1].id) else None;
  }

  /** Above the last id of a prefix comes the rest of the list. */
  lemma IdResumes(st: State, q: RelationQuery, n: nat)
    requires 0 < n <= |RelationsAfter(st, q, None)|
    ensures RelationsAfter(st, q, Some(RelationsAfter(st, q, None)[n - 1])) == RelationsAfter(st, q, None)[n..]
  {
    NatOrder();
    var all := RelationsAfter(st, q, None);
    AscendingSorted(NatLt, Fitting(st, q, None));
    RelationsLive(st, q, None);
    forall x ensures x in all[n..] <==> x in Fitting(st, q, Some(all[n - 1])) { SortedTail(NatLt, all, n, x); }
    AscendingUnique(NatLt, Fitting(st, q, Some(all[n - 1])), all[n..]);
  }

  datatype EdgeWalk = EdgeWalk(st: State, q: RelationQuery, list: seq<nat>, rows: seq<Relation>)

  /** The cursor stands before row `n`. */
  ghost predicate AtId(st: State, q: RelationQuery, cursor: Option<nat>, list: seq<nat>, n: nat) {
    && n <= |list| && list == RelationsAfter(st, q, None) && RelationsAfter(st, q, cursor) == list[n..]
    && (forall id :: id in list ==> id in st.relations)
  }

  ghost predicate At(w: EdgeWalk, cursor: Option<nat>, n: nat) {
    AtId(w.st, w.q, cursor, w.list, n) && w.rows == Edges(w.st.relations, w.list)
  }

  method NextEdges(g: OntologyGraph, cursor: Option<nat>, limit: nat, q: RelationQuery, ghost w: EdgeWalk, ghost n: nat)
    returns (page: seq<Relation>, next: Option<nat>)
    requires g.Valid() && (g.bulk ==> q.source.Some? || q.target.Some?) && limit >= 1 && w.st == g.st && w.q == q && At(w, cursor, n)
    ensures page == Slice(w.rows, n, limit) && (next.Some? <==> |page| == limit)
    ensures next.Some? ==> n + limit <= |w.list| && At(w, next, n + limit)
  {
    assert WellFormed(g.st);
    hide Consistent, WellFormed, At, Slice;
    page, next := ListRelationsAfter(g, q, cursor, limit);
    EdgesResume(w, cursor, limit, n, page, next);
  }

  /** The cursor that a page gives. */
  predicate EdgePageAt(rows: seq<Relation>, limit: nat, n: nat, page: seq<Relation>, next: Option<nat>) {
    page == Slice(rows, n, limit) && next == if 0 < limit == |page| then Some(page[limit - 1].id) else None
  }

  lemma LastId(st: State, list: seq<nat>, limit: nat, n: nat)
    requires WellFormed(st) && limit >= 1 && n + limit <= |list| && forall id :: id in list ==> id in st.relations
    ensures |Slice(Edges(st.relations, list), n, limit)| == limit
    ensures Slice(Edges(st.relations, list), n, limit)[limit - 1].id == list[n + limit - 1]
  {
    assert list[n + limit - 1] in list;
  }

  lemma IdsResume(st: State, q: RelationQuery, cursor: Option<nat>, list: seq<nat>, limit: nat, n: nat, page: seq<Relation>, next: Option<nat>)
    requires WellFormed(st) && limit >= 1 && AtId(st, q, cursor, list, n) && EdgePageAt(Edges(st.relations, list), limit, n, page, next)
    ensures next.Some? ==> AtId(st, q, next, list, n + limit)
  {
    assert |Edges(st.relations, list)| == |list|;
    hide WellFormed, RelationsAfter, Edges;
    if next.Some? {
      LastId(st, list, limit, n);
      IdResumes(st, q, n + limit);
    }
  }

  lemma RestOfRows(w: EdgeWalk, cursor: Option<nat>, n: nat)
    requires At(w, cursor, n)
    ensures forall id :: id in RelationsAfter(w.st, w.q, cursor) ==> id in w.st.relations
    ensures n <= |w.rows| == |w.list| && Edges(w.st.relations, RelationsAfter(w.st, w.q, cursor)) == w.rows[n..]
  {
    assert RelationsAfter(w.st, w.q, cursor) == w.list[n..];
  }

  lemma EdgesResume(w: EdgeWalk, cursor: Option<nat>, limit: nat, n: nat, page: seq<Relation>, next: Option<nat>)
    requires At(w, cursor, n) && WellFormed(w.st) && limit >= 1
    requires forall id :: id in RelationsAfter(w.st, w.q, cursor) ==> id in w.st.relations
    requires page == Slice(Edges(w.st.relations, RelationsAfter(w.st, w.q, cursor)), 0, limit)
    requires next == if 0 < limit == |page| then Some(page[limit - 1].id) else None
    ensures page == Slice(w.rows, n, limit) && (next.Some? <==> |page| == limit)
    ensures next.Some? ==> n + limit <= |w.list| && At(w, next, n + limit)
  {
    hide WellFormed, RelationsAfter, Edges;
    RestOfRows(w, cursor, n);
    SliceDrop(w.rows, n, limit);
    IdsResume(w.st, w.q, cursor, w.list, limit, n, page, next);
  }

  /** Following the cursor until it ends cuts the listing into its pieces. */
  method WalkRelations(g: OntologyGraph, q: RelationQuery, limit: nat) returns (pages: seq<seq<Relation>>)
    requires g.Valid() && (g.bulk ==> q.source.Some? || q.target.Some?) && limit >= 1
    ensures forall id :: id in RelationsAfter(g.st, q, None) ==> id in g.st.relations
    ensures pages == Pieces(Edges(g.st.relations, RelationsAfter(g.st, q, None)), limit)
  {
    RelationsLive(g.st, q, None);
    ghost var list := RelationsAfter(g.st, q, None);
    assert list[0..] == list;
    pages := FollowEdges(g, limit, q, EdgeWalk(g.st, q, list, Edges(g.st.relations, list)));
  }

  method FollowEdges(g: OntologyGraph, limit: nat, q: RelationQuery, ghost w: EdgeWalk) returns (pages: seq<seq<Relation>>)
    requires g.Valid() && (g.bulk ==> q.source.Some? || q.target.Some?) && limit >= 1 && w.st == g.st && w.q == q && At(w, None, 0)
    ensures pages == Pieces(w.rows, limit)
  {
    hide Pieces, Consistent;
    var cursor: Option<nat> := None;
    var more := true;
    ghost var n := 0;
    pages := [];
    assert w.rows[0..] == w.rows && [] + Pieces(w.rows, limit) == Pieces(w.rows, limit);
    while more
      invariant more ==> n <= |w.rows| && pages + Pieces(w.rows[n..], limit) == Pieces(w.rows, limit)
      invariant more ==> At(w, cursor, n)
      invariant !more ==> pages == Pieces(w.rows, limit)
      decreases more, |w.rows| - n
    {
      var page, next := NextEdges(g, cursor, limit, q, w, n);
      PiecesStep(w.rows, n, limit, pages);
      pages := pages + [page];
      cursor := next;
      more := next.Some?;
      n := n + limit;
    }
  }
}
