/** What a run has taken from its source, record by record: the id each concept
    was staged under, the link each relation became
    (crates/io/src/ingest.rs). */
module RunLedger {
  import opened GraphState
  import opened IngestState
  import opened UpsertLaws
  import opened AbsorbLaws
  import opened Arrival
  import opened Idempotence

  /** The records applied so far, by index. */
  datatype Ledger = Ledger(taken: set<nat>, ids: seq<nat>, links: seq<EdgeEnds>)

  function Blank(n: nat): Ledger { Ledger({}, seq(n, _ => 0), seq(n, _ => ("", 0, 0))) }

  type EdgeKey = (nat, nat, string)

  function KeyOfLink(link: EdgeEnds): EdgeKey { (link.1, link.2, link.0) }

  predicate IsRelation(rec: Record) { rec.RelationRecord? || rec.NamedRelation? }

  function TypeOf(rec: Record): string
    requires IsRelation(rec)
  {
    if rec.RelationRecord? then rec.relation.rtype else rec.rtype
  }

  predicate Fits(records: seq<Record>, l: Ledger) {
    |l.ids| == |records| && |l.links| == |records| && forall k :: k in l.taken ==> k < |records|
  }

  /** The concepts staged, and the links emitted. */
  function StagedIds(records: seq<Record>, l: Ledger): set<nat>
    requires Fits(records, l)
  {
    set k | k in l.taken && records[k].ConceptRecord? :: l.ids[k]
  }

  function EmittedLinks(records: seq<Record>, l: Ledger): set<EdgeKey>
    requires Fits(records, l)
  {
    set k | k in l.taken && IsRelation(records[k]) :: KeyOfLink(l.links[k])
  }

  /** No later record was staged under the same id. */
  predicate LastOfId(records: seq<Record>, l: Ledger, k: nat)
    requires Fits(records, l) && k < |records|
  {
    forall j :: j in l.taken && j > k && records[j].ConceptRecord? ==> l.ids[j] != l.ids[k]
  }

  /** A record names this id outright, and so may rename the concept. */
  predicate ExplicitId(records: seq<Record>, l: Ledger, id: nat)
    requires Fits(records, l)
  {
    exists j :: j in l.taken && records[j].ConceptRecord? && records[j].concept.id == id
  }

  /** A staged concept is there, under its explicit id if it has one. It has the
      record's name, unless some record names its id outright; then it has the
      name of the last record staged under its id. */
  predicate ConceptLogged(concepts: map<nat, Concept>, records: seq<Record>, l: Ledger, k: nat)
    requires Fits(records, l) && k < |records|
  {
    records[k].ConceptRecord? ==>
      && l.ids[k] in concepts && (records[k].concept.id != 0 ==> l.ids[k] == records[k].concept.id)
      && (LastOfId(records, l, k) || !ExplicitId(records, l, l.ids[k]) ==> KeyOf(concepts[l.ids[k]]) == KeyOf(records[k].concept))
  }

  /** An emitted link is an edge, one way round or the other. */
  ghost predicate LinkLogged(edges: Links, records: seq<Record>, l: Ledger, k: nat)
    requires Fits(records, l) && k < |records|
  {
    IsRelation(records[k]) ==>
      && l.links[k].0 == TypeOf(records[k]) && (records[k].RelationRecord? ==> l.links[k] == EndsOf(records[k].relation))
      && HasEither(edges, l.links[k])
  }

  ghost predicate Logged(opts: Options, st: State, s: Session, records: seq<Record>, l: Ledger) {
    && Fits(records, l)
    && (forall k :: k in l.taken ==> ConceptLogged(ConceptView(st, s), records, l, k))
    && (forall k :: k in l.taken ==> LinkLogged(LinksOf(st, s), records, l, k))
    && (forall id :: !ExplicitId(records, l, id) ==> NameSettled(st, s, id))
    && (opts.prune ==> s.seenConcepts == StagedIds(records, l) && s.seenEdges == EmittedLinks(records, l))
  }

  // ---------- one record ----------

  /** The move of the ingester on one record, applied or put off. */
  ghost predicate Applied(opts: Options, a: State, s: Session, b: State, t: Session, rec: Record, applied: bool, id: nat, link: EdgeEnds) {
    && EdgesKept(a, s, b, t) && (!applied ==> rec.NamedRelation? || rec.RelationTypeDecl?)
    && (rec.ConceptRecord? ==> StagedInto(opts, a, s, ConceptView(b, t), rec.concept, id))
    && NamesKept(a, s, b, t, if rec.ConceptRecord? then rec.concept.id else 0)
    && (!rec.ConceptRecord? ==> ConceptView(b, t) == ConceptView(a, s))
    && t.seenConcepts == s.seenConcepts + (if opts.prune && rec.ConceptRecord? then {id} else {})
    && (IsRelation(rec) && applied ==>
          && link.0 == TypeOf(rec) && (rec.RelationRecord? ==> link == EndsOf(rec.relation)) && HasEither(LinksOf(b, t), link))
    && t.seenEdges == s.seenEdges + (if opts.prune && IsRelation(rec) && applied then {KeyOfLink(link)} else {})
    && (Plain(rec) && opts.upsert && !opts.prune ==> Took(opts, a, s, b, t, rec, applied))
  }

  function After(l: Ledger, i: nat, applied: bool, id: nat, link: EdgeEnds): Ledger
    requires i < |l.ids| && i < |l.links|
  {
    if applied then Ledger(l.taken + {i}, l.ids[i := id], l.links[i := link]) else l
  }

  lemma AfterStaged(records: seq<Record>, l: Ledger, i: nat, id: nat, link: EdgeEnds)
    requires Fits(records, l) && i < |records| && i !in l.taken
    ensures var m := After(l, i, true, id, link);
      && Fits(records, m)
      && StagedIds(records, m) == StagedIds(records, l) + (if records[i].ConceptRecord? then {id} else {})
      && EmittedLinks(records, m) == EmittedLinks(records, l) + (if IsRelation(records[i]) then {KeyOfLink(link)} else {})
  {
    var m := After(l, i, true, id, link);
    assert m.ids[i] == id && m.links[i] == link;
    assert forall k :: k in l.taken ==> m.ids[k] == l.ids[k] && m.links[k] == l.links[k];
  }

  lemma EitherKept(a: State, s: Session, b: State, t: Session, link: EdgeEnds)
    requires EdgesKept(a, s, b, t) && HasEither(LinksOf(a, s), link)
    ensures HasEither(LinksOf(b, t), link)
  {
    hide HasEdge;
    assert AspectKept(a, s, b, t, OfEdge(link)) && AspectKept(a, s, b, t, OfEdge(Reversed(link)));
  }

  lemma LinksOn(opts: Options, a: State, s: Session, b: State, t: Session, records: seq<Record>, l: Ledger, i: nat, applied: bool,
                id: nat, link: EdgeEnds, k: nat)
    requires Fits(records, l) && i < |records| && i !in l.taken && Applied(opts, a, s, b, t, records[i], applied, id, link)
    requires forall j :: j in l.taken ==> LinkLogged(LinksOf(a, s), records, l, j)
    requires k in After(l, i, applied, id, link).taken
    ensures Fits(records, After(l, i, applied, id, link)) && LinkLogged(LinksOf(b, t), records, After(l, i, applied, id, link), k)
  {
    hide HasEither, EdgesKept, Took, UpsertedInto;
    if k in l.taken {
      assert LinkLogged(LinksOf(a, s), records, l, k);
      if IsRelation(records[k]) { EitherKept(a, s, b, t, l.links[k]); }
    }
  }

  lemma ConceptsOn(opts: Options, before: map<nat, Concept>, after: map<nat, Concept>, records: seq<Record>, l: Ledger, i: nat, id: nat,
                   link: EdgeEnds, k: nat)
    requires Fits(records, l) && i < |records| && i !in l.taken && records[i].ConceptRecord? && forall j :: j in l.taken ==> j < i
    requires || UpsertedInto(opts, before, after, records[i].concept, id)
             || (Overwrote(opts, before, after, records[i].concept, id) && ExplicitId(records, l, id))
    requires k in l.taken + {i} && (k in l.taken ==> ConceptLogged(before, records, l, k))
    ensures Fits(records, After(l, i, true, id, link)) && ConceptLogged(after, records, After(l, i, true, id, link), k)
  {
    var m := After(l, i, true, id, link);
    assert m.ids[i] == id && (k != i ==> m.ids[k] == l.ids[k]);
    if k in l.taken && records[k].ConceptRecord? {
      assert i in m.taken;
      if LastOfId(records, m, k) {
        forall j | j in l.taken && j > k && records[j].ConceptRecord? ensures l.ids[j] != l.ids[k] { assert j in m.taken; }
      } else if !ExplicitId(records, m, l.ids[k]) {
        FewerExplicit(records, l, i, id, link, l.ids[k]);
      }
    }
  }

  lemma FewerExplicit(records: seq<Record>, l: Ledger, i: nat, id: nat, link: EdgeEnds, x: nat)
    requires Fits(records, l) && i < |records| && i !in l.taken
    ensures var m := After(l, i, true, id, link); Fits(records, m) && (ExplicitId(records, l, x) ==> ExplicitId(records, m, x))
    ensures records[i].ConceptRecord? ==> ExplicitId(records, After(l, i, true, id, link), records[i].concept.id)
  {
    var m := After(l, i, true, id, link);
    assert i in m.taken;
    if j :| j in l.taken && records[j].ConceptRecord? && records[j].concept.id == x { assert j in m.taken; }
  }

  lemma SettledOnward(a: State, s: Session, b: State, t: Session, records: seq<Record>, l: Ledger, i: nat, applied: bool, id: nat, link: EdgeEnds)
    requires Fits(records, l) && i < |records| && i !in l.taken && (records[i].ConceptRecord? ==> applied)
    requires forall x :: !ExplicitId(records, l, x) ==> NameSettled(a, s, x)
    requires NamesKept(a, s, b, t, if records[i].ConceptRecord? then records[i].concept.id else 0)
    ensures var m := After(l, i, applied, id, link);
      Fits(records, m) && forall x :: !ExplicitId(records, m, x) ==> NameSettled(b, t, x)
  {
    hide NameSettled;
    var m := After(l, i, applied, id, link);
    forall x | !ExplicitId(records, m, x) ensures NameSettled(b, t, x) { if applied { FewerExplicit(records, l, i, id, link, x); } }
  }

  lemma OthersOn(concepts: map<nat, Concept>, records: seq<Record>, l: Ledger, i: nat, id: nat, link: EdgeEnds, k: nat)
    requires Fits(records, l) && i < |records| && i !in l.taken && !records[i].ConceptRecord?
    requires k in l.taken + {i} && (k in l.taken ==> ConceptLogged(concepts, records, l, k))
    ensures Fits(records, After(l, i, true, id, link)) && ConceptLogged(concepts, records, After(l, i, true, id, link), k)
  {
    var m := After(l, i, true, id, link);
    assert k != i ==> m.ids[k] == l.ids[k];
    if k in l.taken && records[k].ConceptRecord? {
      if LastOfId(records, m, k) {
        forall j | j in l.taken && j > k && records[j].ConceptRecord? ensures l.ids[j] != l.ids[k] { assert j in m.taken; }
      } else {
        FewerExplicit(records, l, i, id, link, l.ids[k]);
      }
    }
  }

  /** The ledger after one more record. */
  lemma LoggedOn(opts: Options, a: State, s: Session, b: State, t: Session, records: seq<Record>, l: Ledger, i: nat, applied: bool,
                 id: nat, link: EdgeEnds)
    requires Logged(opts, a, s, records, l) && i < |records| && i !in l.taken
    requires records[i].ConceptRecord? ==> forall j :: j in l.taken ==> j < i
    requires Applied(opts, a, s, b, t, records[i], applied, id, link)
    ensures Logged(opts, b, t, records, After(l, i, applied, id, link))
  {
    hide HasEither, EdgesKept, Took, UpsertedInto, Overwrote, ConceptLogged, LinkLogged, NameSettled, ExplicitId, NamesKept;
    var m := After(l, i, applied, id, link);
    if applied { AfterStaged(records, l, i, id, link); }
    SettledOnward(a, s, b, t, records, l, i, applied, id, link);
    forall k | k in m.taken ensures ConceptLogged(ConceptView(b, t), records, m, k) && LinkLogged(LinksOf(b, t), records, m, k) {
      LinksOn(opts, a, s, b, t, records, l, i, applied, id, link, k);
      if records[i].ConceptRecord? {
        ConceptsOn(opts, ConceptView(a, s), ConceptView(b, t), records, l, i, id, link, k);
      } else if applied {
        OthersOn(ConceptView(a, s), records, l, i, id, link, k);
      }
    }
  }

  lemma LoggedThrough(opts: Options, a: State, s: Session, b: State, t: Session, records: seq<Record>, l: Ledger)
    requires Logged(opts, a, s, records, l) && EdgesKept(a, s, b, t) && ConceptView(b, t) == ConceptView(a, s)
    requires t.seenConcepts == s.seenConcepts && t.seenEdges == s.seenEdges && NamesKept(a, s, b, t, 0)
    ensures Logged(opts, b, t, records, l)
  {
    hide HasEither, EdgesKept, ConceptLogged, NameSettled, ExplicitId;
    forall k | k in l.taken ensures LinkLogged(LinksOf(b, t), records, l, k) {
      if IsRelation(records[k]) { EitherKept(a, s, b, t, l.links[k]); }
    }
  }

  lemma LoggedStarts(opts: Options, st: State, records: seq<Record>)
    ensures Logged(opts, st, NEW_SESSION, records, Blank(|records|))
  {
    assert ConceptView(st, NEW_SESSION) == st.concepts;
  }
}
