/** Batched concepts against one-at-a-time arrival (crates/io/src/ingest.rs): what
    staging a concept record answers, what upserting it on the view answers, and
    exactly when the two differ. */
module Arrival {
  import opened Collections
  import opened Text
  import opened OntologySchema
  import opened GraphState
  import opened StateLaws
  import opened BatchLaws
  import opened IngestState
  import opened SessionLaws
  import opened AbsorbLaws

  /** The answer to a concept record: refused, or the id it was taken under and
      the concepts that are there then. */
  datatype Answer = Refused | Taken(id: nat, concepts: map<nat, Concept>)

  // ---------- one at a time ----------

  /** The graph, had everything pending been applied. */
  ghost function ViewState(st: State, s: Session): State { st.(concepts := ConceptView(st, s)) }

  ghost function Upserted(st: State, c: Concept): Answer {
    var (next, r) := UpsertConcept(st, c);
    if r.Err? then Refused else Taken(r.value, next.concepts)
  }

  /** With upsert, the concept of that name if there is one. */
  ghost function Existing(opts: Options, st: State, c: Concept): Option<nat> {
    if opts.upsert && c.id == 0 then Find(st, KeyOf(c)) else None
  }

  /** The record upserted on arrival. */
  ghost function Arrive(opts: Options, st: State, c: Concept): Answer {
    var existing := Existing(opts, st, c);
    if existing.None? then Upserted(st, c) else
    var prev := st.concepts[existing.value];
    if AlreadySaid(opts, prev, c) then Taken(existing.value, st.concepts)
    else Upserted(st, Refreshed(opts, prev, c).(id := existing.value))
  }

  // ---------- in a batch ----------

  predicate IsPending(s: Session, id: nat) { exists i :: 0 <= i < |s.pending| && s.pending[i].id == id }

  /** `check_pending_conflicts`. */
  predicate Clashes(schema: Schema, names: map<NameKey, nat>, c: Concept) {
    || (KeyOf(c) in names && (c.id == 0 || names[KeyOf(c)] != c.id))
    || exists o :: o in DisjointTypes(schema, c.ctype) && (o, Lower(c.name)) in names
  }

  /** What the batch and the graph together let in. */
  ghost function Admitted(st: State, s: Session, c: Concept): Answer {
    var r := PrepareConcept(st, c).1;
    if Clashes(st.schema, s.pendingNames, c) || r.Err? then Refused
    else Taken(r.value.id, ConceptView(st, s)[r.value.id := c.(id := r.value.id)])
  }

  ghost function Merged(opts: Options, st: State, s: Session, c: Concept, existing: Option<nat>): Answer
    requires existing.Some? ==> existing.value in st.concepts
  {
    if existing.None? then Admitted(st, s, c) else
    var prev := st.concepts[existing.value];
    if AlreadySaid(opts, prev, c) then Taken(existing.value, ConceptView(st, s))
    else Admitted(st, s, Refreshed(opts, prev, c).(id := existing.value))
  }

  /** The id the record is about, if it is known. */
  ghost function Known(opts: Options, st: State, c: Concept): nat {
    if Existing(opts, st, c).Some? then Existing(opts, st, c).value else c.id
  }

  /** That id waits in the batch, so the batch is settled first. */
  ghost predicate Settles(opts: Options, st: State, s: Session, c: Concept) {
    Known(opts, st, c) != 0 && IsPending(s, Known(opts, st, c))
  }

  predicate Emptied(s: Session) { s.pending == [] && s.pendingNames == map[] }

  /** `stage_concept`: the name is looked up in the graph, then the batch is
      settled if need be, then the record is merged and admitted. */
  ghost function Staging(opts: Options, st: State, s: Session, c: Concept): Answer {
    var existing := Existing(opts, st, c);
    if Settles(opts, st, s, c) then
      if existing.Some? ==> existing.value in ConceptView(st, s)
      then Merged(opts, ViewState(st, s), s.(pending := [], pendingNames := map[]), c, existing) else Refused
    else Merged(opts, st, s, c, existing)
  }

  // ---------- when the two agree ----------

  /** The graph has a concept of that name, a pending record of its id gives it
      another, and no other pending record has taken the name. */
  ghost predicate Released(st: State, s: Session, key: NameKey) {
    Find(st, key).Some? && IsPending(s, Find(st, key).value) && key !in s.pendingNames
  }

  /** The concept found under the record's name is being renamed: the record
      lands on it instead of on a new concept. */
  ghost predicate Redirected(opts: Options, st: State, s: Session, c: Concept) {
    Existing(opts, st, c).Some? && Settles(opts, st, s, c) && KeyOf(c) !in s.pendingNames
  }

  ghost predicate Unchanged(opts: Options, st: State, c: Concept) {
    Existing(opts, st, c).Some? && AlreadySaid(opts, st.concepts[Existing(opts, st, c).value], c)
  }

  /** No pending rename has released the record's name or a disjoint one, and an
      upsert by name does not find its name pending as a new concept's. */
  ghost predicate Unhindered(opts: Options, st: State, s: Session, c: Concept) {
    if Settles(opts, st, s, c) then !Redirected(opts, st, s, c) else
    && !Released(st, s, KeyOf(c)) && (opts.upsert && c.id == 0 ==> KeyOf(c) !in s.pendingNames)
    && (Unchanged(opts, st, c) || forall o :: o in DisjointTypes(st.schema, c.ctype) ==> !Released(st, s, (o, Lower(c.name))))
  }

  /** A batch as the session keeps it. */
  ghost predicate BatchOk(st: State, s: Session) {
    && WellFormed(st) && ConceptsPending(st, s.pending) && BelowWatermark(st, s.pending) && NamesPending(s.pending, s.pendingNames)
  }

  // ---------- names of the view ----------

  lemma {:induction false} OverlayUnique(st: State, batch: seq<Concept>)
    requires WellFormed(st) && ConceptsPending(st, batch)
    ensures NamesUnique(Overlay(st.concepts, batch))
    decreases batch
  {
    if batch != [] {
      BatchStep(st, batch);
      OverlayUnique(Installed(st, batch[0]), batch[1..]);
    }
  }

  lemma {:induction false} OverlayHas(concepts: map<nat, Concept>, batch: seq<Concept>, i: nat)
    requires i < |batch| && forall j, k :: 0 <= j < k < |batch| ==> batch[j].id != batch[k].id
    ensures batch[i].id in Overlay(concepts, batch) && Overlay(concepts, batch)[batch[i].id] == batch[i]
    decreases batch
  {
    var next := concepts[batch[0].id := batch[0]];
    if i > 0 {
      OverlayHas(next, batch[1..], i - 1);
    } else {
      OverlayElsewhere(next, batch[1..], batch[0].id);
    }
  }

  lemma PendingInView(st: State, s: Session, i: nat)
    requires BatchOk(st, s) && i < |s.pending|
    ensures s.pending[i].id in ConceptView(st, s) && ConceptView(st, s)[s.pending[i].id] == s.pending[i]
  {
    forall j, k | 0 <= j < k < |s.pending| ensures s.pending[j].id != s.pending[k].id {
      assert Compatible(st.schema, s.pending[j], s.pending[k]);
    }
    OverlayHas(st.concepts, s.pending, i);
  }

  /** A name that no pending record has and that none releases is the graph's. */
  lemma NameElsewhere(st: State, s: Session, key: NameKey)
    requires BatchOk(st, s) && key !in s.pendingNames
    ensures Find(ViewState(st, s), key) == if Released(st, s, key) then None else Find(st, key)
  {
    var view := ViewState(st, s);
    OverlayUnique(st, s.pending);
    if Find(view, key).Some? {
      var id := Find(view, key).value;
      assert NamedBy(view.concepts, key, id);
      OverlaySource(st.concepts, s.pending, id);
      if i :| 0 <= i < |s.pending| && s.pending[i].id == id && view.concepts[id] == s.pending[i] { assert false; }
      FindUnique(st, key, id);
      if i :| 0 <= i < |s.pending| && s.pending[i].id == id { PendingInView(st, s, i); }
    }
    if Find(st, key).Some? && !Released(st, s, key) {
      var id := Find(st, key).value;
      assert NamedBy(st.concepts, key, id);
      OverlayElsewhere(st.concepts, s.pending, id);
      FindUnique(view, key, id);
    }
  }

  lemma NamePending(st: State, s: Session, key: NameKey)
    requires BatchOk(st, s) && key in s.pendingNames
    ensures Find(ViewState(st, s), key) == Some(s.pendingNames[key]) && IsPending(s, s.pendingNames[key])
    ensures Find(st, key).Some? ==> Find(st, key).value == s.pendingNames[key]
  {
    var i :| 0 <= i < |s.pending| && KeyOf(s.pending[i]) == key;
    PendingInView(st, s, i);
    OverlayUnique(st, s.pending);
    FindUnique(ViewState(st, s), key, s.pending[i].id);
    assert Admissible(st, s.pending[i]);
  }

  // ---------- the same verdict ----------

  /** Graph and view agree on every name that matters to `c`. */
  ghost predicate SameNames(st: State, s: Session, c: Concept) {
    && Find(ViewState(st, s), KeyOf(c)) == Find(st, KeyOf(c))
    && forall o :: o in DisjointTypes(st.schema, c.ctype) ==>
         Find(ViewState(st, s), (o, Lower(c.name))) == Find(st, (o, Lower(c.name)))
  }

  lemma SameAllowed(st: State, s: Session, c: Concept)
    requires SameNames(st, s, c)
    ensures SchemaAllows(ViewState(st, s), c) == SchemaAllows(st, c)
  {
    if c.ctype in st.schema.conceptTypes {
      var ct := st.schema.conceptTypes[c.ctype];
      assert forall o :: o in ct.disjointWith ==> o in DisjointTypes(st.schema, c.ctype);
    }
  }

  lemma SamePrepared(st: State, s: Session, c: Concept)
    requires BatchOk(st, s) && SameNames(st, s, c) && !IsPending(s, c.id)
    ensures PrepareConcept(ViewState(st, s), c).1 == PrepareConcept(st, c).1
  {
    SameAllowed(st, s, c);
    OverlayElsewhere(st.concepts, s.pending, c.id);
  }

  /** Preparing is the whole verdict of an upsert. */
  lemma UpsertedPrepared(st: State, c: Concept)
    requires WellFormed(st)
    ensures var r := PrepareConcept(st, c).1;
      Upserted(st, c) == if r.Err? then Refused else Taken(r.value.id, st.concepts[r.value.id := c.(id := r.value.id)])
  {
    var (st1, r) := PrepareConcept(st, c);
    if r.Ok? {
      PreparedAdmissible(st, c);
      SameFinds(st, st1);
    }
  }

  lemma ViewWellFormed(st: State, s: Session)
    requires BatchOk(st, s)
    ensures WellFormed(ViewState(st, s))
  {
    OverlayUnique(st, s.pending);
    var v := ConceptView(st, s);
    forall id | id in v ensures 0 < id < st.nextConcept && v[id].id == id {
      OverlaySource(st.concepts, s.pending, id);
      if i :| 0 <= i < |s.pending| && s.pending[i].id == id && v[id] == s.pending[i] { assert Admissible(st, s.pending[i]); }
    }
    forall id | id in st.concepts ensures id in v { OverlayKeeps(st.concepts, s.pending, id); }
  }

  /** A name taken by the batch is taken in the view. */
  lemma DisjointTaken(st: State, c: Concept, o: string)
    requires o in DisjointTypes(st.schema, c.ctype) && Find(st, (o, Lower(c.name))).Some?
    ensures PrepareConcept(st, c).1.Err?
  {
  }

  lemma KeyTaken(st: State, c: Concept)
    requires Find(st, KeyOf(c)).Some? && Find(st, KeyOf(c)).value != c.id
    ensures PrepareConcept(st, c).1.Err?
  {
  }

  lemma ClashRefuses(st: State, s: Session, c: Concept)
    requires BatchOk(st, s) && !IsPending(s, c.id) && Clashes(st.schema, s.pendingNames, c)
    ensures PrepareConcept(ViewState(st, s), c).1.Err?
  {
    hide BatchOk, PrepareConcept, ConceptView, IsPending;
    if o :| o in DisjointTypes(st.schema, c.ctype) && (o, Lower(c.name)) in s.pendingNames {
      NamePending(st, s, (o, Lower(c.name)));
      DisjointTaken(ViewState(st, s), c, o);
    } else {
      NamePending(st, s, KeyOf(c));
      KeyTaken(ViewState(st, s), c);
    }
  }

  /** With no name released, the batch admits what the view takes. */
  lemma AdmittedAsUpserted(st: State, s: Session, c: Concept)
    requires BatchOk(st, s) && !IsPending(s, c.id) && !Released(st, s, KeyOf(c))
    requires forall o :: o in DisjointTypes(st.schema, c.ctype) ==> !Released(st, s, (o, Lower(c.name)))
    ensures Admitted(st, s, c) == Upserted(ViewState(st, s), c)
  {
    ViewWellFormed(st, s);
    UpsertedPrepared(ViewState(st, s), c);
    if Clashes(st.schema, s.pendingNames, c) {
      ClashRefuses(st, s, c);
    } else {
      if KeyOf(c) in s.pendingNames { NamePending(st, s, KeyOf(c)); }
      NameElsewhere(st, s, KeyOf(c));
      forall o | o in DisjointTypes(st.schema, c.ctype)
        ensures Find(ViewState(st, s), (o, Lower(c.name))) == Find(st, (o, Lower(c.name)))
      {
        NameElsewhere(st, s, (o, Lower(c.name)));
      }
      SamePrepared(st, s, c);
    }
  }

  /** A released name is still refused. */
  lemma ReleasedRefuses(st: State, s: Session, c: Concept)
    requires BatchOk(st, s) && !IsPending(s, c.id)
    requires Released(st, s, KeyOf(c)) || exists o :: o in DisjointTypes(st.schema, c.ctype) && Released(st, s, (o, Lower(c.name)))
    ensures Admitted(st, s, c) == Refused
  {
    hide BatchOk, PrepareConcept, ConceptView, IsPending;
    if o :| o in DisjointTypes(st.schema, c.ctype) && Released(st, s, (o, Lower(c.name))) {
      DisjointTaken(st, c, o);
    } else {
      KeyTaken(st, c);
    }
  }

  /** Settled, the batch hides nothing. */
  lemma SettledAdmits(st: State, s: Session, c: Concept)
    requires BatchOk(st, s)
    ensures Admitted(ViewState(st, s), s.(pending := [], pendingNames := map[]), c) == Upserted(ViewState(st, s), c)
  {
    ViewWellFormed(st, s);
    UpsertedPrepared(ViewState(st, s), c);
  }

  // ---------- agreement ----------

  lemma NoPendingZero(st: State, s: Session)
    requires BatchOk(st, s)
    ensures !IsPending(s, 0)
  {
    forall i | 0 <= i < |s.pending| ensures s.pending[i].id != 0 { assert Admissible(st, s.pending[i]); }
  }

  /** The concept found by name, when it is not pending, is the view's too. */
  lemma FoundInView(st: State, s: Session, key: NameKey)
    requires BatchOk(st, s) && Find(st, key).Some? && !IsPending(s, Find(st, key).value)
    ensures key !in s.pendingNames && Find(ViewState(st, s), key) == Find(st, key)
    ensures var id := Find(st, key).value; id in ConceptView(st, s) && ConceptView(st, s)[id] == st.concepts[id] && id != 0
  {
    if key in s.pendingNames { NamePending(st, s, key); }
    NameElsewhere(st, s, key);
    OverlayElsewhere(st.concepts, s.pending, Find(st, key).value);
  }

  lemma SettledAgrees(opts: Options, st: State, s: Session, c: Concept)
    requires BatchOk(st, s) && Settles(opts, st, s, c) && !Redirected(opts, st, s, c)
    ensures Staging(opts, st, s, c) == Arrive(opts, ViewState(st, s), c)
  {
    hide Admitted, Upserted;
    var existing := Existing(opts, st, c);
    if existing.Some? {
      NamePending(st, s, KeyOf(c));
      SettledAdmits(st, s, Refreshed(opts, ConceptView(st, s)[existing.value], c).(id := existing.value));
    } else {
      SettledAdmits(st, s, c);
    }
  }

  lemma UnsettledAgrees(opts: Options, st: State, s: Session, c: Concept)
    requires BatchOk(st, s) && !Settles(opts, st, s, c) && Unhindered(opts, st, s, c)
    ensures Staging(opts, st, s, c) == Arrive(opts, ViewState(st, s), c)
  {
    hide Admitted, Upserted, Released;
    NoPendingZero(st, s);
    var existing := Existing(opts, st, c);
    if existing.Some? {
      FoundInView(st, s, KeyOf(c));
      var prev := st.concepts[existing.value];
      if !AlreadySaid(opts, prev, c) { AdmittedAsUpserted(st, s, Refreshed(opts, prev, c).(id := existing.value)); }
    } else {
      if opts.upsert && c.id == 0 { NameElsewhere(st, s, KeyOf(c)); }
      AdmittedAsUpserted(st, s, c);
    }
  }

  lemma HinderedRefuses(opts: Options, st: State, s: Session, c: Concept)
    requires BatchOk(st, s) && !Unhindered(opts, st, s, c) && !Redirected(opts, st, s, c)
    ensures Staging(opts, st, s, c) == Refused
  {
    hide Admitted;
    NoPendingZero(st, s);
    var existing := Existing(opts, st, c);
    if existing.Some? {
      FoundInView(st, s, KeyOf(c));
      ReleasedRefuses(st, s, Refreshed(opts, st.concepts[existing.value], c).(id := existing.value));
    } else if opts.upsert && c.id == 0 && KeyOf(c) in s.pendingNames {
      ClashAdmits(st, s, c);
    } else {
      ReleasedRefuses(st, s, c);
    }
  }

  lemma ClashAdmits(st: State, s: Session, c: Concept)
    requires Clashes(st.schema, s.pendingNames, c)
    ensures Admitted(st, s, c) == Refused
  {
  }

  /** What the redirected record becomes. */
  ghost function Landing(opts: Options, st: State, s: Session, c: Concept): Concept
    requires Existing(opts, st, c).Some? && Existing(opts, st, c).value in ConceptView(st, s)
  {
    var id := Existing(opts, st, c).value;
    Refreshed(opts, ConceptView(st, s)[id], c).(id := id)
  }

  lemma UpsertedId(st: State, c: Concept)
    requires WellFormed(st)
    ensures Upserted(st, c).Taken? ==> if c.id == 0 then Upserted(st, c).id !in st.concepts else Upserted(st, c).id == c.id
  {
    UpsertedPrepared(st, c);
  }

  lemma RedirectedLands(opts: Options, st: State, s: Session, c: Concept)
    requires BatchOk(st, s) && Redirected(opts, st, s, c)
    ensures Existing(opts, st, c).value in ConceptView(st, s)
    ensures Staging(opts, st, s, c) == Upserted(ViewState(st, s), Landing(opts, st, s, c))
    ensures Arrive(opts, ViewState(st, s), c) == Upserted(ViewState(st, s), c)
    ensures Upserted(ViewState(st, s), c).Taken? ==> Upserted(ViewState(st, s), c).id !in ConceptView(st, s)
    ensures Upserted(ViewState(st, s), Landing(opts, st, s, c)).Taken? ==>
      Upserted(ViewState(st, s), Landing(opts, st, s, c)).id == Existing(opts, st, c).value
  {
    hide SchemaAllows, PrepareConcept, Upserted, Admitted, WellFormed, ConceptsPending, BelowWatermark;
    var id := Existing(opts, st, c).value;
    var i :| 0 <= i < |s.pending| && s.pending[i].id == id;
    PendingInView(st, s, i);
    NameElsewhere(st, s, KeyOf(c));
    assert KeyOf(s.pending[i]) in s.pendingNames;
    SettledAdmits(st, s, Landing(opts, st, s, c));
    ViewWellFormed(st, s);
    UpsertedId(ViewState(st, s), c);
    UpsertedId(ViewState(st, s), Landing(opts, st, s, c));
  }

  /** Staging a record answers what upserting it on the view would, with the
      same id and the same concepts, exactly when no name in its way is being
      released, its name is not pending as a new concept's, or one-at-a-time
      arrival refuses it as well. */
  lemma BatchingAgrees(opts: Options, st: State, s: Session, c: Concept)
    requires BatchOk(st, s)
    ensures Redirected(opts, st, s, c) ==> Existing(opts, st, c).value in ConceptView(st, s)
    ensures Staging(opts, st, s, c) == Arrive(opts, ViewState(st, s), c) <==>
      || Unhindered(opts, st, s, c)
      || (Arrive(opts, ViewState(st, s), c).Refused?
          && (Redirected(opts, st, s, c) ==> Upserted(ViewState(st, s), Landing(opts, st, s, c)).Refused?))
  {
    hide Staging, Arrive, Upserted, Landing;
    if Redirected(opts, st, s, c) {
      assert !Unhindered(opts, st, s, c);
      RedirectedLands(opts, st, s, c);
    } else if Unhindered(opts, st, s, c) {
      if Settles(opts, st, s, c) { SettledAgrees(opts, st, s, c); } else { UnsettledAgrees(opts, st, s, c); }
    } else {
      HinderedRefuses(opts, st, s, c);
    }
  }

  // ---------- what a staged record did to the view ----------

  /** No pending record has come to change a name of the graph; `but` may be the
      id whose name the record changes itself. */
  ghost predicate NamesKept(a: State, s: Session, b: State, t: Session, but: nat) {
    forall id :: (but == 0 || id != but) && NameSettled(a, s, id) ==> NameSettled(b, t, id)
  }

  /** A record taken was upserted under its own name; one that landed elsewhere
      did so on a concept whose name a pending record was changing. */
  ghost predicate StagedInto(opts: Options, a: State, s: Session, after: map<nat, Concept>, c: Concept, id: nat) {
    var before := ConceptView(a, s);
    if Redirected(opts, a, s, c) then Overwrote(opts, before, after, c, id) && !NameSettled(a, s, id)
    else UpsertedInto(opts, before, after, c, id)
  }

  lemma AdmittedInto(st: State, s: Session, c: Concept)
    requires BatchOk(st, s) && Admitted(st, s, c).Taken?
    ensures var r := Admitted(st, s, c);
      && r.concepts == ConceptView(st, s)[r.id := c.(id := r.id)] && (c.id != 0 ==> r.id == c.id)
      && (c.id == 0 ==> r.id !in ConceptView(st, s))
  {
    PreparedAdmissible(st, c);
    FreshInView(st, s.pending);
  }

  /** What is found in the graph and waits in the batch has, in the view, the
      record's type, and its name unless a pending record changes that. */
  lemma FoundWaiting(opts: Options, st: State, s: Session, c: Concept)
    requires BatchOk(st, s) && Settles(opts, st, s, c) && Existing(opts, st, c).Some?
    ensures var id := Existing(opts, st, c).value;
      && id != 0 && id in ConceptView(st, s) && ConceptView(st, s)[id].ctype == c.ctype && ConceptView(st, s)[id].id == id
      && (if Redirected(opts, st, s, c) then KeyOf(ConceptView(st, s)[id]) != KeyOf(c) && !NameSettled(st, s, id)
          else KeyOf(ConceptView(st, s)[id]) == KeyOf(c))
  {
    var id := Existing(opts, st, c).value;
    var i :| 0 <= i < |s.pending| && s.pending[i].id == id;
    PendingInView(st, s, i);
    FoundId(st, KeyOf(c), id);
    assert Admissible(st, s.pending[i]);
    if KeyOf(c) in s.pendingNames { NamePending(st, s, KeyOf(c)); } else { assert KeyOf(s.pending[i]) in s.pendingNames; }
  }

  lemma StagingSettled(opts: Options, st: State, s: Session, c: Concept)
    requires BatchOk(st, s) && Settles(opts, st, s, c) && Staging(opts, st, s, c).Taken?
    ensures StagedInto(opts, st, s, Staging(opts, st, s, c).concepts, c, Staging(opts, st, s, c).id)
  {
    hide Admitted, SchemaAllows, PrepareConcept, WellFormed, ConceptsPending, BelowWatermark, NamesPending, NameSettled, IsPending;
    var view, rest := ViewState(st, s), s.(pending := [], pendingNames := map[]);
    var existing := Existing(opts, st, c);
    EmptiedOk(st, s);
    if existing.Some? {
      FoundWaiting(opts, st, s, c);
      var landing := Landing(opts, st, s, c);
      if !AlreadySaid(opts, ConceptView(st, s)[existing.value], c) { AdmittedInto(view, rest, landing); }
    } else {
      AdmittedInto(view, rest, c);
    }
  }

  lemma EmptiedOk(st: State, s: Session)
    requires BatchOk(st, s)
    ensures var view, rest := ViewState(st, s), s.(pending := [], pendingNames := map[]);
      BatchOk(view, rest) && ConceptView(view, rest) == ConceptView(st, s)
  {
    ViewWellFormed(st, s);
  }

  lemma StagingUnsettled(opts: Options, st: State, s: Session, c: Concept)
    requires BatchOk(st, s) && !Settles(opts, st, s, c) && Staging(opts, st, s, c).Taken?
    ensures StagedInto(opts, st, s, Staging(opts, st, s, c).concepts, c, Staging(opts, st, s, c).id)
  {
    hide Admitted, SchemaAllows;
    var existing := Existing(opts, st, c);
    if existing.Some? {
      FoundInView(st, s, KeyOf(c));
      var prev := st.concepts[existing.value];
      if !AlreadySaid(opts, prev, c) { AdmittedInto(st, s, Refreshed(opts, prev, c).(id := existing.value)); }
    } else {
      AdmittedInto(st, s, c);
    }
  }

  lemma StagingInto(opts: Options, st: State, s: Session, c: Concept)
    requires BatchOk(st, s) && Staging(opts, st, s, c).Taken?
    ensures StagedInto(opts, st, s, Staging(opts, st, s, c).concepts, c, Staging(opts, st, s, c).id)
  {
    hide Staging;
    if Settles(opts, st, s, c) { StagingSettled(opts, st, s, c); } else { StagingUnsettled(opts, st, s, c); }
  }

  lemma RedirectedUnsettled(opts: Options, st: State, s: Session, c: Concept)
    requires BatchOk(st, s) && Redirected(opts, st, s, c)
    ensures !NameSettled(st, s, Existing(opts, st, c).value)
  {
    var id := Existing(opts, st, c).value;
    var i :| 0 <= i < |s.pending| && s.pending[i].id == id;
    PendingInView(st, s, i);
    assert NamedBy(st.concepts, KeyOf(c), id);
    assert KeyOf(s.pending[i]) in s.pendingNames;
  }

  /** With every name settled nothing is redirected. */
  lemma SettledNotRedirected(opts: Options, st: State, s: Session, c: Concept)
    requires BatchOk(st, s) && NamesSettled(st, s)
    ensures !Redirected(opts, st, s, c)
  {
    if Redirected(opts, st, s, c) {
      RedirectedUnsettled(opts, st, s, c);
      assert false;
    }
  }

  /** A staged record settles or leaves the other names. */
  lemma StagedKeepsNames(opts: Options, a: State, s: Session, b: State, t: Session, c: Concept, id: nat)
    requires BatchOk(a, s) && StagedInto(opts, a, s, ConceptView(b, t), c, id)
    requires b.concepts == a.concepts || b.concepts == ConceptView(a, s)
    ensures NamesKept(a, s, b, t, c.id)
  {
    hide ConceptsPending, Redirected;
    forall x | (c.id == 0 || x != c.id) && NameSettled(a, s, x) ensures NameSettled(b, t, x) {
      if x in a.concepts { OverlayKeeps(a.concepts, s.pending, x); }
    }
  }

  lemma NamesOnward(a: State, s: Session, b: State, t: Session, c: State, u: Session, but: nat)
    requires NamesKept(a, s, b, t, but) && Keeps(b, t, c, u)
    ensures NamesKept(a, s, c, u, but)
  {
    hide LinkKept, NameSettled;
    forall x | (but == 0 || x != but) && NameSettled(a, s, x) ensures NameSettled(c, u, x) { assert AspectKept(b, t, c, u, OfName(x)); }
  }

  /** The batch settled, or left as it was. */
  ghost predicate BatchKept(a: State, s: Session, b: State, t: Session) {
    ConceptView(b, t) == ConceptView(a, s) && (t.pending == [] || (t.pending == s.pending && b.concepts == a.concepts))
  }

  lemma NamesByBatch(a: State, s: Session, b: State, t: Session)
    requires BatchKept(a, s, b, t)
    ensures NamesKept(a, s, b, t, 0)
  {
  }

  lemma NamesThrough(a: State, s: Session, b: State, t: Session, c: State, u: Session, but: nat)
    requires Keeps(a, s, b, t) && NamesKept(b, t, c, u, but)
    ensures NamesKept(a, s, c, u, but)
  {
    hide LinkKept, NameSettled;
    NamesByKeeps(a, s, b, t, 0);
  }

  lemma NamesByKeeps(a: State, s: Session, b: State, t: Session, but: nat)
    requires Keeps(a, s, b, t)
    ensures NamesKept(a, s, b, t, but)
  {
    hide LinkKept, NameSettled;
    forall x | (but == 0 || x != but) && NameSettled(a, s, x) ensures NameSettled(b, t, x) { assert AspectKept(a, s, b, t, OfName(x)); }
  }

  lemma ArrivesUnhindered(opts: Options, st: State, log: seq<LogRecord>, s: Session, c: Concept)
    requires SessionOk(st, log, s)
    ensures Unhindered(opts, st, s, c) ==> Staging(opts, st, s, c) == Arrive(opts, ViewState(st, s), c)
  {
    hide Staging, Arrive, Unhindered;
    BatchingAgrees(opts, st, s, c);
  }

  /** The answer depends on concepts, schema and batch alone, and for a fresh id
      on the counter. */
  lemma MergedFrame(opts: Options, a: State, s: Session, b: State, t: Session, c: Concept, existing: Option<nat>)
    requires a.concepts == b.concepts && a.schema == b.schema && s.pending == t.pending && s.pendingNames == t.pendingNames
    requires existing.Some? ==> existing.value in a.concepts && existing.value != 0
    requires existing.Some? || c.id != 0 || a.nextConcept == b.nextConcept
    ensures Merged(opts, a, s, c, existing) == Merged(opts, b, t, c, existing)
  {
    SameFinds(a, b);
  }
}
