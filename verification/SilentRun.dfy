/** A run that journals nothing has been told nothing: each record it took was
    absorbed by the graph to begin with (crates/io/src/ingest.rs). */
module SilentRun {
  import opened GraphState
  import opened IngestState
  import opened UpsertLaws
  import opened AbsorbLaws
  import opened Ingest
  import opened Idempotence

  /** An upsert of plain records, without a prune. */
  predicate Plainly(opts: Options, records: seq<Record>) {
    opts.upsert && !opts.prune && forall i :: 0 <= i < |records| ==> Plain(records[i])
  }

  ghost predicate Told(opts: Options, st: State, records: seq<Record>, taken: set<nat>, retried: seq<nat>) {
    forall k :: k in taken || k in retried ==> k < |records| && Absorbed(opts, st, records[k])
  }

  /** Since `a` the journal has grown from `n` to `m` records; if it has not, and
      nothing waits, the graph is as it was and had all that the records say. */
  ghost predicate Silent(opts: Options, a: State, n: nat, st: State, s: Session, m: nat, records: seq<Record>, taken: set<nat>, retried: seq<nat>) {
    n <= m && (m == n && Idle(s) ==> SameGraph(a, st) && Told(opts, a, records, taken, retried))
  }

  lemma AbsorbedSame(opts: Options, a: State, b: State, rec: Record)
    requires SameGraph(a, b)
    ensures Absorbed(opts, a, rec) <==> Absorbed(opts, b, rec)
  {
    if rec.NamedRelation? {
      assert forall key :: Find(a, key) == Find(b, key);
      assert LinksOf(a, NEW_SESSION) == LinksOf(b, NEW_SESSION);
    }
  }

  lemma NothingFresh(st: State, s: Session, link: EdgeEnds)
    requires NothingPending(s)
    ensures NamesSettled(st, s) && Fresh(LinksOf(st, s), link)
  {
  }

  /** A record taken without a trace was absorbed. */
  lemma TakenSilently(opts: Options, a: State, s: Session, b: State, t: Session, log: seq<LogRecord>, rec: Record)
    requires Plain(rec) && Took(opts, a, s, b, t, rec, true) && SessionOk(b, log, t)
    requires Idle(s) && Idle(t) && SameGraph(a, b)
    ensures Absorbed(opts, a, rec)
  {
    hide Took, Fresh, NamesSettled, Said, Absorbed;
    NothingFresh(a, s, ("", 0, 0));
    forall link ensures NamesSettled(a, s) && Fresh(LinksOf(a, s), link) { NothingFresh(a, s, link); }
    NowSaid(opts, a, s, b, t, log, rec);
    SaidIsAbsorbed(opts, b, t, rec);
    AbsorbedSame(opts, a, b, rec);
  }

  /** One more record, applied, put off, or dropped for good. */
  lemma SilentOn(opts: Options, a: State, n: nat, st: State, s: Session, k: nat, b: State, t: Session, m: nat, log: seq<LogRecord>,
                 records: seq<Record>, taken: set<nat>, retried: seq<nat>, i: nat, applied: bool, dropped: bool)
    requires Silent(opts, a, n, st, s, k, records, taken, retried) && WrittenAhead(st, s, k, b, t, m) && SessionOk(b, log, t)
    requires i < |records| && Plain(records[i]) && Took(opts, st, s, b, t, records[i], applied)
    requires dropped ==> applied || (records[i].RelationTypeDecl? && !EndsKnown(b.schema, records[i].relationType))
    ensures Silent(opts, a, n, b, t, m, records, if applied then taken + {i} else taken, if dropped then retried + [i] else retried)
  {
    hide Took, SessionOk, Plain;
    if m == n && Idle(t) {
      if applied {
        TakenSilently(opts, st, s, b, t, log, records[i]);
        AbsorbedSame(opts, a, st, records[i]);
      } else if dropped {
        assert Absorbed(opts, a, records[i]);
      }
    }
  }

  /** A barrier in between. */
  lemma SilentThrough(opts: Options, a: State, n: nat, st: State, s: Session, k: nat, b: State, t: Session, m: nat,
                      records: seq<Record>, taken: set<nat>, retried: seq<nat>)
    requires Silent(opts, a, n, st, s, k, records, taken, retried) && WrittenAhead(st, s, k, b, t, m)
    ensures Silent(opts, a, n, b, t, m, records, taken, retried)
  {
  }
}
