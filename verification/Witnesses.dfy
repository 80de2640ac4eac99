/** Concrete inputs that miss a property, beside the conditions under which it
    holds: schema changes, repeated runs, batched concepts, deletions, and
    documents of too many chunks. */
module Witnesses {
  import opened Collections
  import opened Text
  import opened OntologySchema
  import opened GraphState
  import opened StateLaws
  import opened BatchLaws
  import opened IngestState
  import opened SessionLaws
  import opened UpsertLaws
  import opened AbsorbLaws
  import opened Arrival
  import opened Consistency
  import opened Engine
  import opened Ingest
  import opened Idempotence
  import opened IngestRun
  import opened Deletion
  import opened OperationLaws
  import opened Recovery
  import opened RecoveryLaws
  import opened Chunking
  import Extraction

  const THING := ConceptType("thing", None, None, "", [], [], None)

  function Link(symmetric: bool): RelationType {
    RelationType("link", "thing", "thing", ManyToMany, symmetric, "", false, None, false, false)
  }

  const BARE := Schema(map["thing" := THING], map[])

  function Linking(symmetric: bool): Schema { Schema(map["thing" := THING], map["link" := Link(symmetric)]) }

  /** Two things, and one edge from the second to the first. */
  function Backward(schema: Schema): State {
    State(schema, map[1 := Concept(1, "thing", "a", "", map[]), 2 := Concept(2, "thing", "b", "", map[])],
          map[1 := Relation(1, "link", 2, 1, 5, map[])], [1], 3, 2)
  }

  lemma BackwardWellFormed(schema: Schema)
    requires WellKeyed(schema)
    ensures WellFormed(Backward(schema))
  {
    assert "a"[1..] == "" && "b"[1..] == "";
    assert Lower("a") == LowerChar('a') + Lower("") && Lower("b") == LowerChar('b') + Lower("");
    assert LowerChar('a') == "a" && LowerChar('b') == "b" && Lower("") == "";
    assert Lower("a")[0] == 'a' && Lower("b")[0] == 'b';
  }

  lemma FlatSchema(s: Schema, t: string)
    requires s.conceptTypes == map["thing" := THING]
    ensures Acyclic(s) && NamespacesOk(s) && NsOf(s, t) == DEFAULT_NS
  {
    forall u, n: nat | n > 0 && u in s.conceptTypes ensures AncestorAt(s, u, n) == None { NoAncestor(s, u, n); }
    forall n: nat ensures !NearestNsAt(s, t, n) { }
  }

  lemma {:induction false} NoAncestor(s: Schema, t: string, n: nat)
    requires s.conceptTypes == map["thing" := THING] && n > 0 && t in s.conceptTypes
    ensures AncestorAt(s, t, n) == None
  {
    if n > 1 { NoAncestor(s, t, n - 1); }
  }

  lemma FlatAccepted(st: State, candidate: Schema)
    requires st.schema.conceptTypes == map["thing" := THING] && candidate.conceptTypes == st.schema.conceptTypes
    requires forall id :: id in st.concepts ==> st.concepts[id].ctype == "thing"
    requires forall t :: t in st.schema.relationTypes ==> RelationTypeKept(st, candidate, t)
    ensures AcceptsSchema(st, candidate)
  {
    forall t ensures TypeKept(st, candidate, t) {
      FlatSchema(st.schema, t);
      FlatSchema(candidate, t);
    }
    FlatSchema(candidate, "thing");
  }

  /** A live relation of an undeclared type: the declaration is accepted, and
      taking it back is refused. */
  lemma RollbackRefused()
    ensures var st := Backward(BARE);
      WellFormed(st) && AcceptsSchema(st, Linking(false)) && !AcceptsSchema(st.(schema := Linking(false)), st.schema)
  {
    var st := Backward(BARE);
    BackwardWellFormed(BARE);
    FlatAccepted(st, Linking(false));
    RollbackAccepted(st, Linking(false));
    assert st.relations[1].rtype in Linking(false).relationTypes;
  }

  /** A declaration that turns a type over takes back what a relation of the
      type has said exactly when the type stops being symmetric and only the
      reverse edge is there. */
  lemma TurnedOver(st: State, rt: RelationType, link: EdgeEnds, weight: int, properties: Props)
    requires rt.name == link.0 && LinkApplied(st, link, weight, properties)
    ensures LinkApplied(st.(schema := Declared(st.schema, rt)), link, weight, properties) <==>
      (rt.symmetric || FirstWith(st.relations, st.order, link).Some?)
  {
  }

  // ---------- a second run that speaks ----------

  const UPSERTING := Options(true, false, false, 0.5, {})

  /** Link a to b; links are not symmetric. */
  const TURNING := [NamedRelation("link", "thing", "a", "thing", "b", 5, map[]), RelationTypeDecl(Link(false))]

  lemma BackwardSound(symmetric: bool)
    ensures WellFormed(Backward(Linking(symmetric))) && SchemaSound(Backward(Linking(symmetric)))
  {
    BackwardWellFormed(Linking(symmetric));
    FlatSchema(Linking(symmetric), "thing");
  }

  lemma BackwardEnds(symmetric: bool)
    ensures EndsFound(Backward(Linking(symmetric)), SourceKey(TURNING[0]), TargetKey(TURNING[0])) == Some((1, 2))
  {
    var st := Backward(Linking(symmetric));
    NamesDiffer();
    FoundThing(st, ("thing", Lower("a")), 1);
    FoundThing(st, ("thing", Lower("b")), 2);
  }

  /** While links are symmetric the edge counts either way round. */
  lemma BackwardSays(symmetric: bool)
    ensures LinkApplied(Backward(Linking(symmetric)), ("link", 1, 2), 5, map[]) <==> symmetric
  {
    var st := Backward(Linking(symmetric));
    assert st.order[..0] == [];
    assert FirstWith(st.relations, [], ("link", 1, 2)) == None && FirstWith(st.relations, [], ("link", 2, 1)) == None;
  }

  lemma FirstTurns()
    ensures OneNew(UPSERTING, Backward(Linking(true)), TURNING, true) && OneNew(UPSERTING, Backward(Linking(true)), TURNING, false)
    ensures LastDeclared(Backward(Linking(true)), TURNING) == Backward(Linking(false))
  {
    hide WellFormed, EndsFound, LinkApplied, AcceptsSchema;
    var st := Backward(Linking(true));
    BackwardEnds(true);
    BackwardSays(true);
    FlatAccepted(st, Linking(false));
    assert Declared(st.schema, Link(false)) == Linking(false);
    assert NewAt(UPSERTING, st, TURNING, 1);
  }

  lemma LinkAddable()
    ensures Addable(Backward(Linking(false)), ("link", 1, 2), 5, map[])
  {
    assert AncestorAt(Linking(false), "thing", 0) == Some("thing");
  }

  lemma SecondAdds()
    ensures OneNew(UPSERTING, Backward(Linking(false)), TURNING, false)
    ensures !AllAbsorbed(UPSERTING, Backward(Linking(false)), TURNING)
  {
    hide WellFormed, EndsFound, LinkApplied, Addable;
    BackwardEnds(false);
    BackwardSays(false);
    LinkAddable();
    assert !Absorbed(UPSERTING, Backward(Linking(false)), TURNING[0]);
    assert NewAt(UPSERTING, Backward(Linking(false)), TURNING, 0);
  }

  /** Taken twice while the graph has only the reverse edge of a symmetric type,
      this source is journaled both times: the second run adds the edge that the
      first one found reversed. All that a silent second run asks of the records
      themselves is met. */
  method SecondRunSpeaks(graph: OntologyGraph, store: LogStore)
    returns (first: Ingested<()>, second: Ingested<()>, ghost st: State, ghost log: seq<LogRecord>)
    requires graph.Valid() && graph.st == Backward(Linking(true)) && LastSchema(store.log) == Some(Linking(true)) && store.outcomes == []
    modifies graph`st, graph`ix, store
    ensures Repeatable(map["link" := false], TURNING)
    ensures first.Done? && second.Done? && st == Backward(Linking(false)) && |store.log| > |log|
  {
    hide WellFormed, SchemaSound, OneNew, AllAbsorbed, SourceTaken, Consistent, LastDeclared;
    BackwardSound(true);
    FirstTurns();
    SecondAdds();
    ghost var s, l, drained, before, astray;
    first, s, l, drained, before, astray := IngestRecordsWith(graph, store, UPSERTING, TURNING, false, map[]);
    st, log := graph.st, store.log;
    second, s, l, drained, before, astray := IngestRecordsWith(graph, store, UPSERTING, TURNING, false, map[]);
  }

  /** Two descriptions of one thing: no graph ever has both, so every run of this
      source is journaled. */
  lemma TwoSayings(st: State)
    requires WellFormed(st)
    ensures !AllAbsorbed(UPSERTING, st, [ConceptRecord(Thing(0, "a", "x")), ConceptRecord(Thing(0, "a", "y"))])
  {
    var records := [ConceptRecord(Thing(0, "a", "x")), ConceptRecord(Thing(0, "a", "y"))];
    if AllAbsorbed(UPSERTING, st, records) {
      assert Absorbed(UPSERTING, st, records[0]) && Absorbed(UPSERTING, st, records[1]);
      AbsorbedFound(UPSERTING, st, Thing(0, "a", "x"));
      AbsorbedFound(UPSERTING, st, Thing(0, "a", "y"));
    }
  }

  // ---------- a declaration repeated ----------

  const OTHER := THING.(name := "other", disjointWith := ["thing"])

  /** Declaring `thing` as disjoint from `second` pulls in `other`, which is
      disjoint from it already; so the same declaration changes the schema once
      more. */
  lemma DeclarationRepeated()
    ensures var s := Schema(map["other" := OTHER, "second" := THING.(name := "second")], map[]);
      var decl := THING.(disjointWith := ["second"]);
      !DeclChangesNothing(s, decl) && !DeclChangesNothing(MergedSchema(s, decl), decl)
  {
    var s := Schema(map["other" := OTHER, "second" := THING.(name := "second")], map[]);
    var decl := THING.(disjointWith := ["second"]);
    RepeatedDeclaration(s, decl);
    assert "thing" in OTHER.disjointWith;
    assert "other" in BackEdges(s, MergedConceptType(s, decl));
  }

  // ---------- a deletion that stops half-way ----------

  function Pair(): State {
    State(BARE, map[1 := Concept(1, "thing", "a", "", map[]), 2 := Concept(2, "thing", "b", "", map[])], map[], [], 3, 1)
  }

  /** Concept 1 given twice before concept 2: the deletion fails, and concept 2
      is gone from the journal while the graph still has it. */
  method DeletedTwice(graph: OntologyGraph, store: LogStore)
    requires graph.Valid() && graph.st == Pair() && Durable(graph.st, store.log) && store.outcomes == []
    modifies graph`st, graph`ix, store
    ensures graph.Valid() && graph.st.concepts.Keys == {2} && Journaled(store.log) == map[]
  {
    hide RemovedAll, DeletionLog, LiveOf, Journaled, HalfRemoved, Consistent, WellFormed;
    var r;
    ghost var targets;
    r, targets := DeleteConcepts(graph, store, [1, 1, 2]);
    LiveTwice(targets);
    FirstGone(graph.st);
    JournaledDeletions(old(store.log), Pair(), targets);
    assert Elems(targets) == {1, 2};
  }

  lemma FirstGone(after: State)
    requires HalfRemoved(Pair(), [1, 1, 2], after)
    ensures after.concepts.Keys == {2}
  {
    var k: nat :| k < 3 && NoDup([1, 1, 2][..k]) && [1, 1, 2][k] in [1, 1, 2][..k] && after == RemovedAll(Pair(), [1, 1, 2][..k]);
    FirstRepeat(k);
    RemovedAllExact(Pair(), [1]);
  }

  lemma LiveTwice(targets: seq<nat>)
    requires targets == LiveOf(Pair().concepts, [1, 1, 2])
    ensures targets == [1, 1, 2] && !NoDup(targets)
  {
    assert [1, 1, 2][..2] == [1, 1] && [1, 1][..1] == [1] && [1][..0] == [];
    assert LiveOf(Pair().concepts, [1]) == [1] && LiveOf(Pair().concepts, [1, 1]) == [1, 1];
    assert targets[0] == targets[1];
  }

  lemma FirstRepeat(k: nat)
    requires k < 3 && NoDup([1, 1, 2][..k]) && [1, 1, 2][k] in [1, 1, 2][..k]
    ensures [1, 1, 2][..k] == [1]
  {
    assert !NoDup([1, 1]) by { assert [1, 1][0] == [1, 1][1]; }
    assert [1, 1, 2][..2] == [1, 1];
  }

  // ---------- a document of too many chunks ----------

  lemma {:induction false} SpellAtMost(chunks: seq<string>, budget: nat)
    requires Extraction.WithinBudget(chunks, budget)
    ensures |Spell(chunks)| <= |chunks| * Limit(budget)
  {
    hide Solid;
    if chunks != [] {
      assert chunks[0] in chunks && forall c :: c in chunks[1..] ==> c in chunks;
      SolidLength(chunks[0]);
      SpellAtMost(chunks[1..], budget);
      OneMore(|chunks[1..]|, Limit(budget));
    }
  }

  lemma OneMore(n: nat, each: nat)
    ensures (n + 1) * each == n * each + each
  {
  }

  lemma {:induction false} SolidLength(s: string)
    ensures |Solid(s)| <= |s| && ((forall i :: 0 <= i < |s| ==> !White(s[i])) ==> |Solid(s)| == |s|)
  {
    if s != "" {
      SolidLength(s[1..]);
      assert forall i :: 0 <= i < |s[1..]| ==> s[1..][i] == s[i + 1];
    }
  }

  lemma TooFew(n: nat, budget: nat, size: nat)
    requires 0 < budget <= Extraction.CHUNK_BUDGET_CHARS && size <= n * Limit(budget)
    requires size > Extraction.MAX_PIECES * Extraction.CHUNK_BUDGET_CHARS
    ensures n > Extraction.MAX_PIECES
  {
    if n <= Extraction.MAX_PIECES { NoLarger(n, Extraction.MAX_PIECES, budget); }
  }

  lemma NoLarger(a: nat, b: nat, each: nat)
    requires a <= b
    ensures a * each <= b * each
  {
  }

  /** More than 256 budgets of text without a blank: a model that always
      answers, and is never cut off, is given up on. */
  method LongDocument() returns (r: Extraction.Outcome)
    ensures r == Extraction.GaveUp
  {
    hide Solid, Spell;
    var text := seq(Extraction.MAX_PIECES * Extraction.CHUNK_BUDGET_CHARS + 1, _ => 'a');
    var model: Extraction.Model := (_, _) => Extraction.Replied(None, "{}");
    var parse: Extraction.Parser := (_, _) => Some(Extraction.Proposal([], []));
    ghost var asked, chunks;
    r, asked, chunks := Extraction.ExtractProposal(text, model, parse);
    assert Extraction.NeverCutOff(model, parse);
    SolidLength(text);
    SpellAtMost(chunks, Extraction.BudgetFor(text));
    TooFew(|chunks|, Extraction.BudgetFor(text), |text|);
  }

  // ---------- batched concepts against arrival ----------

  function Thing(id: nat, name: string, description: string): Concept { Concept(id, "thing", name, description, map[]) }

  /** One concept staged and not yet settled. */
  function Waiting(c: Concept): Session { NEW_SESSION.(pending := [c], pendingNames := map[KeyOf(c) := c.id]) }

  function Alone(c: Concept): State { State(BARE, map[c.id := c], map[], [], c.id + 1, 1) }

  lemma NamesDiffer()
    ensures Lower("a") != Lower("b")
  {
    assert "a"[1..] == "" && "b"[1..] == "";
    assert Lower("a") == LowerChar('a') + Lower("") && Lower("b") == LowerChar('b') + Lower("");
    assert LowerChar('a') == "a" && LowerChar('b') == "b" && Lower("") == "";
    assert Lower("a")[0] == 'a' && Lower("b")[0] == 'b';
  }

  lemma ThingAllowed(st: State, c: Concept)
    requires st.schema == BARE && c.ctype == "thing" && c.properties == map[]
    ensures SchemaAllows(st, c).Ok?
  {
  }

  lemma FoundThing(st: State, key: NameKey, id: nat)
    requires id in st.concepts && KeyOf(st.concepts[id]) == key && forall i :: i in st.concepts && KeyOf(st.concepts[i]) == key ==> i == id
    ensures Find(st, key) == Some(id)
  {
    assert NamedBy(st.concepts, key, id);
  }

  lemma NoThing(st: State, key: NameKey)
    requires forall i :: i in st.concepts ==> KeyOf(st.concepts[i]) != key
    ensures Find(st, key) == None
  {
  }

  lemma RenamingOk()
    ensures BatchOk(Alone(Thing(5, "a", "")), Waiting(Thing(5, "b", "")))
    ensures ConceptView(Alone(Thing(5, "a", "")), Waiting(Thing(5, "b", ""))) == map[5 := Thing(5, "b", "")]
  {
    var st, s := Alone(Thing(5, "a", "")), Waiting(Thing(5, "b", ""));
    NamesDiffer();
    ThingAllowed(st, Thing(5, "b", ""));
    NoThing(st, ("thing", Lower("b")));
    assert s.pending[0] == Thing(5, "b", "");
    forall k | k in s.pendingNames ensures KeyOf(s.pending[0]) == k { }
    assert Overlay(st.concepts[5 := Thing(5, "b", "")], []) == st.concepts[5 := Thing(5, "b", "")];
    assert s.pending[1..] == [];
  }

  /** Concept 5 is called `a`, and a pending record renames it to `b`. A record
      named `a` then lands on concept 5, and `b` is lost; one at a time it makes
      a new concept. */
  lemma RenameIsLost()
    ensures var st, s, c := Alone(Thing(5, "a", "")), Waiting(Thing(5, "b", "")), Thing(0, "a", "");
      && BatchOk(st, s) && Redirected(UPSERTING, st, s, c)
      && Staging(UPSERTING, st, s, c) == Taken(5, map[5 := Thing(5, "a", "")])
      && Arrive(UPSERTING, ViewState(st, s), c) == Taken(6, map[5 := Thing(5, "b", ""), 6 := Thing(6, "a", "")])
  {
    hide BatchOk, Staging, Arrive;
    var st, s, c := Alone(Thing(5, "a", "")), Waiting(Thing(5, "b", "")), Thing(0, "a", "");
    var view := ViewState(st, s);
    NamesDiffer();
    RenamingOk();
    FoundThing(st, KeyOf(c), 5);
    assert s.pending[0].id == 5;
    RedirectedLands(UPSERTING, st, s, c);
    ViewWellFormed(st, s);
    NoThing(view, KeyOf(c));
    ThingAllowed(view, c);
    UpsertedPrepared(view, c);
    ThingAllowed(view, Thing(5, "a", ""));
    UpsertedPrepared(view, Thing(5, "a", ""));
    assert Landing(UPSERTING, st, s, c) == Thing(5, "a", "");
  }

  /** The name that the rename gives up is refused to a new concept as well. */
  lemma ReleasedNameRefused()
    ensures var st, s, c := Alone(Thing(5, "a", "")), Waiting(Thing(5, "b", "")), Thing(9, "a", "");
      && BatchOk(st, s) && Staging(UPSERTING, st, s, c) == Refused
      && Arrive(UPSERTING, ViewState(st, s), c) == Taken(9, map[5 := Thing(5, "b", ""), 9 := Thing(9, "a", "")])
  {
    hide BatchOk, Staging;
    var st, s, c := Alone(Thing(5, "a", "")), Waiting(Thing(5, "b", "")), Thing(9, "a", "");
    var view := ViewState(st, s);
    NamesDiffer();
    RenamingOk();
    FoundThing(st, KeyOf(c), 5);
    assert s.pending[0].id == 5;
    HinderedRefuses(UPSERTING, st, s, c);
    ViewWellFormed(st, s);
    NoThing(view, KeyOf(c));
    ThingAllowed(view, c);
    UpsertedPrepared(view, c);
  }

  /** A name new to the graph, given twice in one batch, is a duplicate; one at a
      time the second record updates the first. */
  lemma TwiceIsDuplicate()
    ensures var st, s, c := State(BARE, map[], map[], [], 2, 1), Waiting(Thing(1, "a", "")), Thing(0, "a", "again");
      && BatchOk(st, s) && Staging(UPSERTING, st, s, c) == Refused
      && Arrive(UPSERTING, ViewState(st, s), c) == Taken(1, map[1 := Thing(1, "a", "again")])
  {
    hide Staging;
    var st, s, c := State(BARE, map[], map[], [], 2, 1), Waiting(Thing(1, "a", "")), Thing(0, "a", "again");
    var view := ViewState(st, s);
    ThingAllowed(st, Thing(1, "a", ""));
    NoThing(st, KeyOf(c));
    assert s.pending[1..] == [] && Overlay(map[1 := Thing(1, "a", "")], []) == map[1 := Thing(1, "a", "")];
    assert view.concepts == map[1 := Thing(1, "a", "")];
    HinderedRefuses(UPSERTING, st, s, c);
    ViewWellFormed(st, s);
    FoundThing(view, KeyOf(c), 1);
    ThingAllowed(view, Thing(1, "a", "again"));
    UpsertedPrepared(view, Thing(1, "a", "again"));
  }

  // ---------- a journal that does not come back ----------

  const NEAR := RelationType("near", "thing", "thing", ManyToMany, true, "", false, None, false, false)
  const PAIRED := Schema(map["thing" := THING], map["near" := NEAR, "link" := Link(false)])

  function Things(schema: Schema): State {
    State(schema, map[1 := Concept(1, "thing", "a", "", map[]), 2 := Concept(2, "thing", "b", "", map[])], map[], [], 3, 1)
  }

  function ThingsLog(schema: Schema): seq<LogRecord> {
    [OntologyLog(schema)] + ConceptRecords([Concept(1, "thing", "a", "", map[]), Concept(2, "thing", "b", "", map[])])
  }

  lemma ThingsRestored(schema: Schema)
    requires schema.conceptTypes == map["thing" := THING] && WellKeyed(schema)
    ensures WellFormed(Things(schema)) && LastSchema(ThingsLog(schema)) == Some(schema)
    ensures RestoredById(Things(schema), ThingsLog(schema))
  {
    hide WellFormed, Restored, RestoredById, Acyclic, NamespacesOk;
    var a, b := Concept(1, "thing", "a", "", map[]), Concept(2, "thing", "b", "", map[]);
    var log := [OntologyLog(schema)];
    FlatSchema(schema, "thing");
    FreshJournal(schema);
    NamesDiffer();
    assert ConceptsPending(Empty(schema), [a, b]) by {
      assert Admissible(Empty(schema), a) && Admissible(Empty(schema), b);
      assert Compatible(schema, a, b);
    }
    assert log[..0] == [];
    ConceptsRecover(Empty(schema), log, [a, b]);
    ThingsApplied(schema, a, b);
    LastSchemaAppend(log, ConceptRecords([a, b]));
    RestoredIsWellFormed(Things(schema), ThingsLog(schema));
  }

  lemma ThingsApplied(schema: Schema, a: Concept, b: Concept)
    requires a == Concept(1, "thing", "a", "", map[]) && b == Concept(2, "thing", "b", "", map[])
    ensures AppliedAll(Empty(schema), [a, b]) == Things(schema)
  {
    var one := Installed(Empty(schema), a);
    assert [a, b][1..] == [b] && [b][1..] == [];
    assert AppliedAll(Empty(schema), [a, b]) == AppliedAll(one, [b]) == Installed(one, b);
    assert Installed(one, b).concepts == map[1 := a, 2 := b];
  }

  lemma RestoredIsWellFormed(st: State, log: seq<LogRecord>)
    requires RestoredById(st, log)
    ensures WellFormed(st)
  {
  }

  // ---------- ids that shift ----------

  const NEAR_AB := Relation(1, "near", 1, 2, 5, map[])
  const LINK_BA := Relation(2, "link", 2, 1, 7, map[])

  /** Both relations were prepared: the next free id is 3. */
  const PREPARED := Things(PAIRED).(nextRelation := 3)

  lemma PairAdmitted()
    ensures RelationsPending(PREPARED, [NEAR_AB, LINK_BA]) && RelationsDue(PREPARED, [NEAR_AB, LINK_BA])
  {
    var batch := [NEAR_AB, LINK_BA];
    assert AncestorAt(PAIRED, "thing", 0) == Some("thing");
    assert Refusal(PREPARED, NEAR_AB).None? && Refusal(PREPARED, LINK_BA).None?;
    assert batch[..0] == [] && batch[..1] == [NEAR_AB] && [NEAR_AB][..0] == [];
    assert EffectsAll(PAIRED, [NEAR_AB]) == EffectsAll(PAIRED, []) + Effects(PAIRED, NEAR_AB);
    assert DueAt(PREPARED, batch, 0) && DueAt(PREPARED, batch, 1);
  }

  /** Replayed, the inverse of the first takes the id of the second. */
  lemma ShiftedOrder(r: State)
    requires Twin(r, PREPARED) && r.order == [] && r.schema == PAIRED && r.nextRelation == 1
    ensures var n := Reload(r, RelationRecords([NEAR_AB, LINK_BA])); n.Some? && n.value.order == [1, 2, 3]
  {
    hide WellFormed, Refusal, ReloadOne, DueAfter, RelationsPending;
    var batch := [NEAR_AB, LINK_BA];
    PairAdmitted();
    DueBatch(PREPARED, batch);
    NextLinked(PREPARED, batch);
    RelationReload(r, PREPARED, NEAR_AB);
    Reloaded(r, NEAR_AB);
    RelationIds(r, PREPARED, NEAR_AB);
    var n, next := ReloadOne(r, RelationLog(NEAR_AB)).value, ApplyRelation(PREPARED, NEAR_AB).0;
    assert batch[1..] == [LINK_BA];
    NextLinked(next, [LINK_BA]);
    RelationReload(n, next, LINK_BA);
    Reloaded(n, LINK_BA);
    assert 2 in n.order && n.schema == PAIRED;
    TakenId(n, LINK_BA);
    assert RelationRecords(batch) == [RelationLog(NEAR_AB), RelationLog(LINK_BA)];
    assert Reload(r, RelationRecords(batch)) == Reload(n, [RelationLog(LINK_BA)]) == ReloadOne(n, RelationLog(LINK_BA)) by {
      assert RelationRecords(batch)[1..] == [RelationLog(LINK_BA)] && [RelationLog(LINK_BA)][1..] == [];
    }
  }

  lemma Reloaded(r: State, rel: Relation)
    requires ReloadOne(r, RelationLog(rel)).Some?
    ensures ReloadOne(r, RelationLog(rel)).value == GraphState.AddRelation(r, rel).0 && Refusal(r, rel).None?
  {
  }

  lemma TakenId(r: State, rel: Relation)
    requires WellFormed(r) && Refusal(r, rel).None? && rel.id in r.order && !Mirrored(r.schema, rel)
    ensures GraphState.AddRelation(r, rel).0.order == r.order + [r.nextRelation]
  {
    hide Refusal;
    PreparedFresh(r, rel);
  }

  /** A relation of a symmetric type and one of another in one batch; then the
      second is deleted. A restart deletes the inverse of the first instead. */
  lemma ShiftedIds() returns (st: State, log: seq<LogRecord>)
    ensures Restored(st, log) && 2 in st.relations && st.relations[2].rtype == "link"
    ensures !Restored(GraphState.RemoveRelation(st, 2).0, log + [DeleteRelationLog(2, "link")])
  {
    hide WellFormed, Refusal, ReloadOne, RelationsPending, RelationsDue, Edges;
    var batch, before := [NEAR_AB, LINK_BA], ThingsLog(PAIRED);
    ThingsRestored(PAIRED);
    PairAdmitted();
    CounterRestored(before);
    RelationsRecover(PREPARED, before, batch);
    st, log := LinkedAll(PREPARED, batch), before + RelationRecords(batch);
    ReloadOn(before, RelationRecords(batch));
    ShiftedOrder(Recovered(before).value);
    var r := Recovered(log).value;
    ShiftedEdges(st, r);
    TombstoneExactly(r, st, 2);
    var more := [DeleteRelationLog(2, "link")];
    ReloadOn(log, more);
    assert Reload(r, more) == Some(GraphState.RemoveRelation(r, 2).0) by {
      assert more[1..] == [];
      TombstoneReload(r);
    }
  }

  lemma TombstoneReload(r: State)
    ensures ReloadOne(r, DeleteRelationLog(2, "link")) == Some(GraphState.RemoveRelation(r, 2).0)
  {
  }

  lemma CounterRestored(log: seq<LogRecord>)
    requires RestoredById(Things(PAIRED), log)
    ensures RestoredById(PREPARED, log) && Recovered(log).value.order == [] && Recovered(log).value.nextRelation == 1
    ensures Recovered(log).value.schema == PAIRED || LastSchema(log) != Some(PAIRED)
  {
  }

  lemma ShiftedEdges(st: State, r: State)
    requires st == LinkedAll(PREPARED, [NEAR_AB, LINK_BA]) && Twin(r, st) && r.order == [1, 2, 3]
    ensures 2 in st.relations && st.relations[2] == LINK_BA
    ensures 2 in r.relations && r.relations[2].rtype == "near"
  {
    var batch := [NEAR_AB, LINK_BA];
    var one := ApplyRelation(PREPARED, NEAR_AB).0;
    assert batch[1..] == [LINK_BA] && [LINK_BA][1..] == [];
    assert st == LinkedAll(one, [LINK_BA]) == ApplyRelation(one, LINK_BA).0;
    assert one.order == [1, 3] && st.order == [1, 3, 2];
    assert r.order[1] in r.relations;
    assert Edges(r)[1] == Edges(st)[1] == EdgeOf(st.relations[3]);
  }

  // ---------- an update ahead of its schema ----------

  const LINK_AB := Relation(1, "link", 1, 2, 5, map[])
  const BOTH_WAYS := Things(Linking(false)).(nextRelation := 3)

  lemma LinksAdmitted()
    ensures RelationsPending(BOTH_WAYS, [LINK_AB, LINK_BA]) && RelationsDue(BOTH_WAYS, [LINK_AB, LINK_BA])
  {
    var batch := [LINK_AB, LINK_BA];
    assert AncestorAt(Linking(false), "thing", 0) == Some("thing");
    assert Refusal(BOTH_WAYS, LINK_AB).None? && Refusal(BOTH_WAYS, LINK_BA).None?;
    assert batch[..0] == [] && batch[..1] == [LINK_AB] && [LINK_AB][..0] == [];
    assert EffectsAll(Linking(false), [LINK_AB]) == EffectsAll(Linking(false), []) + Effects(Linking(false), LINK_AB);
    assert DueAt(BOTH_WAYS, batch, 0) && DueAt(BOTH_WAYS, batch, 1);
  }

  lemma LinksApplied(st: State)
    requires st == LinkedAll(BOTH_WAYS, [LINK_AB, LINK_BA])
    ensures st == BOTH_WAYS.(relations := map[1 := LINK_AB, 2 := LINK_BA], order := [1, 2])
  {
    var one := ApplyRelation(BOTH_WAYS, LINK_AB).0;
    assert [LINK_AB, LINK_BA][1..] == [LINK_BA] && [LINK_BA][1..] == [];
    assert st == LinkedAll(one, [LINK_BA]) == ApplyRelation(one, LINK_BA).0;
    assert st.relations == map[1 := LINK_AB, 2 := LINK_BA];
  }

  /** Links are journaled as one-sided; the declaration that makes them
      symmetric is live but not journaled when an update goes out. The graph
      updates both sides of the edge, a restart one. */
  lemma EarlyUpdate() returns (st: State, log: seq<LogRecord>, u: Relation)
    ensures RestoredById(st, log) && LastSchema(log) == Some(Linking(false)) && st.schema == Linking(true)
    ensures AcceptsSchema(st.(schema := Linking(false)), st.schema) && UpdatesPending(st, [u])
    ensures !Restored(ApplyRelationUpdate(st, u).0, log + [UpdateRelationLog(u)])
  {
    hide WellFormed, Refusal, ReloadOne, RelationsPending, RelationsDue, Edges;
    var batch, before := [LINK_AB, LINK_BA], ThingsLog(Linking(false));
    ThingsRestored(Linking(false));
    LinksAdmitted();
    RestoredUnder(Things(Linking(false)), before, BOTH_WAYS);
    RelationsRecover(BOTH_WAYS, before, batch);
    var plain := LinkedAll(BOTH_WAYS, batch);
    LinksApplied(plain);
    log := before + RelationRecords(batch);
    LastSchemaAppend(before, RelationRecords(batch));
    assert BatchKeepsIds(BOTH_WAYS, before, batch) by { assert !Mirrored(Linking(false), LINK_AB) && !Mirrored(Linking(false), LINK_BA); }
    st := plain.(schema := Linking(true));
    RestoredUnder(plain, log, st);
    FlatAccepted(plain, Linking(true));
    u := LINK_AB.(weight := 9);
    TurnedUpdate(st, log, u);
  }

  lemma RestoredUnder(a: State, log: seq<LogRecord>, b: State)
    requires RestoredById(a, log) && b == a.(schema := b.schema, nextRelation := b.nextRelation)
    requires WellKeyed(b.schema) && b.nextRelation >= a.nextRelation
    ensures RestoredById(b, log)
  {
  }

  lemma TurnedUpdate(st: State, log: seq<LogRecord>, u: Relation)
    requires RestoredById(st, log) && Recovered(log).value.schema == Linking(false) && st.schema == Linking(true)
    requires st.relations == map[1 := LINK_AB, 2 := LINK_BA] && st.order == [1, 2] && u == LINK_AB.(weight := 9)
    ensures !Restored(ApplyRelationUpdate(st, u).0, log + [UpdateRelationLog(u)])
  {
    hide WellFormed, ReloadOne, ApplyRelationUpdate, Edges;
    var r, more := Recovered(log).value, [UpdateRelationLog(u)];
    TwinIds(r, st);
    UpdateExactly(r, st, u);
    assert Oldest(st, "link", 2, 1, 2) && !Says(st.relations[2], 9, map[]);
    ReloadOn(log, more);
    assert more[1..] == [];
    var n, next := ReloadOne(r, more[0]).value, ApplyRelationUpdate(st, u).0;
    assert Reload(r, more) == Some(n);
    var v := r.relations[1].(weight := u.weight, properties := u.properties);
    UpdateReloads(r, u);
    UpdatedShape(r, v);
    UpdatedShape(st, u);
    if Restored(next, log + more) { TwinIds(n, next); }
  }
}
