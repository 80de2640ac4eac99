/** The generation-stamped page caches (crates/graph/src/graph.rs), as the
    interleaved steps of readers and writers. A reader loads the generation,
    looks the page up, computes it on a miss and inserts it; a writer changes
    the indexes in as many steps as it likes, then bumps the generation, then
    clears the cache. A page computed while a writer is at work may be anything.
    A bulk load is one long writer, from the start of the load to the bump at
    its end. `list` is the uncached listing of an index `I` for a request `K`. */
module PageCache {
  import opened Collections
  import opened GraphState
  import opened Listing
  import RelationListing

  const CACHE_CAP := 256

  datatype Entry<P> = Entry(gen: nat, page: P)

  /** `clean`: no writer has been at work since the generation was loaded. */
  datatype Reader<K, P> =
    | Loaded(key: K, gen: nat, clean: bool)
    | Computed(key: K, gen: nat, page: P, clean: bool)

  datatype Phase = Writing | Bumped

  datatype Shared<I, K, P> = Shared(
    index: I, gen: nat, cache: map<K, Entry<P>>, readers: map<nat, Reader<K, P>>, writers: map<nat, Phase>)

  datatype Action<I, K, P> =
    | Load(reader: nat, key: K)
    | Compute(reader: nat, page: P)
    | Insert(reader: nat)
    | Write(writer: nat, index: I)
    | Bump(writer: nat)
    | Clear(writer: nat)

  /** A writer is between its first index write and its bump. */
  predicate AtWork<I, K, P>(s: Shared<I, K, P>) { exists w :: w in s.writers && s.writers[w] == Writing }

  function Soiled<K, P>(r: Reader<K, P>): Reader<K, P> {
    match r
    case Loaded(key, gen, _) => Loaded(key, gen, false)
    case Computed(key, gen, page, _) => Computed(key, gen, page, false)
  }

  ghost predicate Enabled<I, K, P>(list: (I, K) -> P, s: Shared<I, K, P>, a: Action<I, K, P>) {
    match a
    case Load(r, _) => true
    case Compute(r, page) => r in s.readers && s.readers[r].Loaded? && (s.readers[r].clean ==> page == list(s.index, s.readers[r].key))
    case Insert(r) => r in s.readers && s.readers[r].Computed?
    case Write(w, _) => w !in s.writers || s.writers[w] == Writing
    case Bump(w) => w in s.writers && s.writers[w] == Writing
    case Clear(w) => w in s.writers && s.writers[w] == Bumped
  }

  function Next<I, K, P>(s: Shared<I, K, P>, a: Action<I, K, P>): Shared<I, K, P> {
    match a
    case Load(r, key) => s.(readers := s.readers[r := Loaded(key, s.gen, !AtWork(s))])
    case Compute(r, page) =>
      if r !in s.readers then s else
      s.(readers := s.readers[r := Computed(s.readers[r].key, s.readers[r].gen, page, s.readers[r].clean)])
    case Insert(r) =>
      if r !in s.readers || !s.readers[r].Computed? then s else
      var e := s.readers[r];
      var kept := if |s.cache| >= CACHE_CAP then map[] else s.cache;
      s.(cache := kept[e.key := Entry(e.gen, e.page)], readers := s.readers - {r})
    case Write(w, index) =>
      s.(index := index, writers := s.writers[w := Writing], readers := map r | r in s.readers :: Soiled(s.readers[r]))
    case Bump(w) => s.(gen := s.gen + 1, writers := s.writers[w := Bumped])
    case Clear(w) => s.(cache := map[], writers := s.writers - {w})
  }

  // ---------- the invariant ----------

  ghost predicate EntryOk<I, K, P>(list: (I, K) -> P, s: Shared<I, K, P>, k: K)
    requires k in s.cache
  {
    s.cache[k].gen <= s.gen && (!AtWork(s) && s.cache[k].gen == s.gen ==> s.cache[k].page == list(s.index, k))
  }

  ghost predicate ReaderOk<I, K, P>(list: (I, K) -> P, s: Shared<I, K, P>, r: nat)
    requires r in s.readers
  {
    var e := s.readers[r];
    && e.gen <= s.gen
    && (if e.clean then !AtWork(s) && e.gen == s.gen && (e.Computed? ==> e.page == list(s.index, e.key))
        else AtWork(s) || e.gen < s.gen)
  }

  ghost predicate Inv<I, K(!new), P>(list: (I, K) -> P, s: Shared<I, K, P>) {
    (forall k :: k in s.cache ==> EntryOk(list, s, k)) && (forall r :: r in s.readers ==> ReaderOk(list, s, r))
  }

  lemma BumpInv<I, K(!new), P>(list: (I, K) -> P, s: Shared<I, K, P>, w: nat)
    requires Inv(list, s) && w in s.writers && s.writers[w] == Writing
    ensures Inv(list, Next(s, Bump(w)))
  {
    var next := Next(s, Bump(w));
    assert AtWork(s);
    forall k | k in next.cache ensures EntryOk(list, next, k) { assert EntryOk(list, s, k); }
    forall r | r in next.readers ensures ReaderOk(list, next, r) { assert ReaderOk(list, s, r); }
  }

  lemma WriteInv<I, K(!new), P>(list: (I, K) -> P, s: Shared<I, K, P>, w: nat, index: I)
    requires Inv(list, s)
    ensures Inv(list, Next(s, Write(w, index)))
  {
    var next := Next(s, Write(w, index));
    assert next.writers[w] == Writing;
    assert AtWork(next);
    forall k | k in next.cache ensures EntryOk(list, next, k) { assert EntryOk(list, s, k); }
    forall r | r in next.readers ensures ReaderOk(list, next, r) { assert ReaderOk(list, s, r); }
  }

  lemma InsertInv<I, K(!new), P>(list: (I, K) -> P, s: Shared<I, K, P>, r: nat)
    requires Inv(list, s) && Enabled(list, s, Insert(r))
    ensures Inv(list, Next(s, Insert(r)))
  {
    var next := Next(s, Insert(r));
    assert ReaderOk(list, s, r);
    assert AtWork(next) == AtWork(s);
    forall k | k in next.cache ensures EntryOk(list, next, k) { if k != s.readers[r].key { assert EntryOk(list, s, k); } }
    forall x | x in next.readers ensures ReaderOk(list, next, x) { assert ReaderOk(list, s, x); }
  }

  lemma ClearInv<I, K(!new), P>(list: (I, K) -> P, s: Shared<I, K, P>, w: nat)
    requires Inv(list, s) && Enabled(list, s, Clear(w))
    ensures Inv(list, Next(s, Clear(w)))
  {
    var next := Next(s, Clear(w));
    assert AtWork(next) == AtWork(s) by {
      if x :| x in s.writers && s.writers[x] == Writing { assert x in next.writers && next.writers[x] == Writing; }
    }
    forall x | x in next.readers ensures ReaderOk(list, next, x) { assert ReaderOk(list, s, x); }
  }

  lemma ReaderInv<I, K(!new), P>(list: (I, K) -> P, s: Shared<I, K, P>, a: Action<I, K, P>)
    requires Inv(list, s) && Enabled(list, s, a) && (a.Load? || a.Compute?)
    ensures Inv(list, Next(s, a))
  {
    var next := Next(s, a);
    assert AtWork(next) == AtWork(s);
    if a.Compute? { assert ReaderOk(list, s, a.reader); }
    forall k | k in next.cache ensures EntryOk(list, next, k) { assert EntryOk(list, s, k); }
    forall x | x in next.readers ensures ReaderOk(list, next, x) { if x != a.reader { assert ReaderOk(list, s, x); } }
  }

  lemma NextInv<I, K(!new), P>(list: (I, K) -> P, s: Shared<I, K, P>, a: Action<I, K, P>)
    requires Inv(list, s) && Enabled(list, s, a)
    ensures Inv(list, Next(s, a))
  {
    match a
    case Load(_, _) => ReaderInv(list, s, a);
    case Compute(_, _) => ReaderInv(list, s, a);
    case Insert(r) => InsertInv(list, s, r);
    case Write(w, index) => WriteInv(list, s, w, index);
    case Bump(w) => BumpInv(list, s, w);
    case Clear(w) => ClearInv(list, s, w);
  }

  // ---------- runs ----------

  ghost predicate IsRun<I(!new), K(!new), P(!new)>(list: (I, K) -> P, s: Shared<I, K, P>, actions: seq<Action<I, K, P>>) {
    actions == [] ||
    (IsRun(list, s, actions[..|actions| - 1]) && Enabled(list, After(s, actions[..|actions| - 1]), actions[|actions| - 1]))
  }

  function After<I, K, P>(s: Shared<I, K, P>, actions: seq<Action<I, K, P>>): Shared<I, K, P> {
    if actions == [] then s else Next(After(s, actions[..|actions| - 1]), actions[|actions| - 1])
  }

  function Initial<I, K, P>(index: I): Shared<I, K, P> { Shared(index, 0, map[], map[], map[]) }

  lemma {:induction false} RunInv<I(!new), K(!new), P(!new)>(list: (I, K) -> P, index: I, actions: seq<Action<I, K, P>>)
    requires IsRun(list, Initial(index), actions)
    ensures Inv(list, After(Initial(index), actions))
  {
    if actions != [] {
      RunInv(list, index, actions[..|actions| - 1]);
      NextInv(list, After(Initial(index), actions[..|actions| - 1]), actions[|actions| - 1]);
    }
  }

  /** Over every run: while no writer is between its index write and its bump,
      an entry stamped with the current generation is the uncached listing. */
  lemma CacheIsCurrent<I(!new), K(!new), P(!new)>(list: (I, K) -> P, index: I, actions: seq<Action<I, K, P>>, k: K)
    requires IsRun(list, Initial(index), actions)
    requires var s := After(Initial(index), actions); k in s.cache && !AtWork(s) && s.cache[k].gen == s.gen
    ensures var s := After(Initial(index), actions); s.cache[k].page == list(s.index, k)
  {
    RunInv(list, index, actions);
    assert EntryOk(list, After(Initial(index), actions), k);
  }

  /** A hit that no writer interfered with serves the uncached listing; any
      other hit was served to a reader that overlapped a writer. */
  lemma HitIsCurrent<I(!new), K(!new), P(!new)>(list: (I, K) -> P, index: I, actions: seq<Action<I, K, P>>, r: nat)
    requires IsRun(list, Initial(index), actions)
    requires var s := After(Initial(index), actions);
      && r in s.readers && s.readers[r].Loaded? && s.readers[r].clean
      && s.readers[r].key in s.cache && s.cache[s.readers[r].key].gen == s.readers[r].gen
    ensures var s := After(Initial(index), actions); s.cache[s.readers[r].key].page == list(s.index, s.readers[r].key)
  {
    RunInv(list, index, actions);
    var s := After(Initial(index), actions);
    assert ReaderOk(list, s, r);
    assert EntryOk(list, s, s.readers[r].key);
  }

  // ---------- the two listings that are cached ----------

  datatype Request = Request(ctype: Option<string>, needle: Option<string>, offset: nat, limit: nat, track: bool, subtypes: bool)

  /** `list_concepts_page` without the cache. */
  ghost function UncachedConcepts(st: State, req: Request): (nat, seq<Concept>) {
    var keys := ListAfter(st, Asked(st.schema, req.ctype, req.subtypes, req.needle), None);
    (Counted(|keys|, req.offset, req.limit, req.track || IsFast(req.needle)),
     if forall k :: k in keys ==> k.2 in st.concepts then Slice(Rows(st.concepts, keys), req.offset, req.limit) else [])
  }

  datatype EdgeRequest = EdgeRequest(q: RelationListing.RelationQuery, offset: nat, limit: nat, track: bool)

  ghost function UncachedRelations(st: State, req: EdgeRequest): (nat, seq<Relation>) {
    var ids := RelationListing.RelationsAfter(st, req.q, None);
    (Counted(|ids|, req.offset, req.limit, req.track),
     if forall id :: id in ids ==> id in st.relations then Slice(RelationListing.Edges(st.relations, ids), req.offset, req.limit) else [])
  }

  lemma ConceptPagesCurrent(st: State, actions: seq<Action<State, Request, (nat, seq<Concept>)>>, req: Request)
    requires IsRun(UncachedConcepts, Initial(st), actions)
    requires var s := After(Initial(st), actions); req in s.cache && !AtWork(s) && s.cache[req].gen == s.gen
    ensures var s := After(Initial(st), actions); s.cache[req].page == UncachedConcepts(s.index, req)
  {
    CacheIsCurrent(UncachedConcepts, st, actions, req);
  }

  lemma RelationPagesCurrent(st: State, actions: seq<Action<State, EdgeRequest, (nat, seq<Relation>)>>, req: EdgeRequest)
    requires IsRun(UncachedRelations, Initial(st), actions)
    requires var s := After(Initial(st), actions); req in s.cache && !AtWork(s) && s.cache[req].gen == s.gen
    ensures var s := After(Initial(st), actions); s.cache[req].page == UncachedRelations(s.index, req)
  {
    CacheIsCurrent(UncachedRelations, st, actions, req);
  }
}
