/** Payloads on disk: concept slots whose payload may be evicted, and the
    protocol between the store (`set_loc`, `partition_sealed`) and the graph
    (apply, update, remove, read). The threads interleave at the granularity of
    the locks each operation takes and releases: `set_loc` lets go of an evicted
    slot before it stashes the location (crates/graph/src/graph.rs:1015-1018).
    The store makes its calls from one thread, so two calls of `set_loc` do not
    overlap (crates/storage/src/segment_store.rs:1030-1041). */
module PayloadTier {
  import opened Collections
  import opened GraphState

  datatype Loc = Loc(ns: nat, partition: nat, offset: nat)
  type Partition = (nat, nat)

  function PartOf(l: Loc): Partition { (l.ns, l.partition) }

  datatype Payload = Payload(description: string, properties: Props)

  /** Type and name stay in memory; the payload leaves it on eviction. */
  datatype Slot = Slot(ctype: string, name: string, loc: Option<Loc>, payload: Option<Payload>)

  function NewSlot(c: Concept, loc: Option<Loc>): Slot {
    Slot(c.ctype, c.name, loc, Some(Payload(c.description, c.properties)))
  }

  /** The payload tier of the graph. */
  datatype Tier = Tier(
    slots: map<nat, Slot>, pending: map<nat, Loc>, sealed: set<Partition>, sealable: map<Partition, seq<nat>>, attached: bool)

  function Evict(t: Tier, id: nat): Tier
    requires id in t.slots
  {
    t.(slots := t.slots[id := t.slots[id].(payload := None)])
  }

  function Located(t: Tier, id: nat, l: Loc): Tier
    requires id in t.slots
  {
    t.(slots := t.slots[id := t.slots[id].(loc := Some(l))])
  }

  // ---------- the interleaved world ----------

  datatype Write = Write(c: Concept, loc: Loc)

  /** Where the thread applying the oldest write of an id stands inside
      `apply_prepared_concept`: not begun, previous location read, or pending
      location taken. */
  datatype Stage = Idle | Read(prev: Option<Loc>) | Took(loc: Option<Loc>, taken: Option<Loc>)

  /** The durable writes of one id not yet applied, oldest first; the first
      `announced` of them have been reported through `set_loc`. When `stashing`,
      the `set_loc` of the next one has found no payload to locate and has not
      yet stashed the location. */
  datatype Flight = Flight(writes: seq<Write>, announced: nat, stashing: bool, stage: Stage)

  /** `disk`, `closed` (sealed, hence readable partitions) and `retired`
      (deleted by compaction) belong to the store; `applied` is what the graph
      would hold without eviction. The last four fields are work that a thread
      holds between two locks. */
  datatype World = World(
    t: Tier, disk: map<Loc, Concept>, closed: set<Partition>, retired: set<Partition>, applied: map<nat, Concept>, inflight: map<nat, Flight>,
    pushing: set<(nat, Loc)>, evicting: set<(nat, Loc)>, bucketing: set<(nat, Loc)>, sealing: set<(Partition, nat)>)

  datatype Action =
    | Append(id: nat, c: Concept, loc: Loc)
    | Close(part: Partition)
    | Attach
    | Retire(part: Partition)
    | Announce(id: nat)
    | Stash(id: nat)
    | ApplyRead(id: nat)
    | ApplyTake(id: nat)
    | ApplyInsert(id: nat)
    | Update(id: nat)
    | PushCheck(id: nat, loc: Loc)
    | EvictNow(id: nat, loc: Loc)
    | BucketPut(id: nat, loc: Loc)
    | SealMark(part: Partition)
    | SealTake(part: Partition)
    | SealDrop(part: Partition, id: nat)
    | Relocate(id: nat, loc: Loc)
    | Remove(id: nat)

  predicate Applicable(w: World, id: nat) {
    id in w.inflight && 0 < w.inflight[id].announced <= |w.inflight[id].writes|
  }

  function TypeOf(w: World, id: nat): Option<string> {
    if id in w.applied then Some(w.applied[id].ctype)
    else if id in w.inflight && |w.inflight[id].writes| > 0 then Some(w.inflight[id].writes[0].c.ctype) else None
  }

  /** The contract of the store: a record is durable before it is announced and
      announced before it is applied, in order; a partition is sealed on disk
      before the graph hears of it; compaction rewrites settled concepts only,
      and deletes a partition once nothing is located there. Types are
      immutable. */
  predicate Enabled(w: World, a: Action) {
    match a
    case Append(id, c, l) => c.id == id && l !in w.disk && PartOf(l) !in w.retired && (TypeOf(w, id).Some? ==> TypeOf(w, id).value == c.ctype)
    case Close(p) => p !in w.retired
    case Attach => true
    case Retire(p) =>
      && (forall id :: id in w.t.slots ==> !LocatedIn(w.t, id, p))
      && (forall id :: id in w.inflight ==> forall k :: 0 <= k < |w.inflight[id].writes| ==> PartOf(w.inflight[id].writes[k].loc) != p)
    case Announce(id) => id in w.inflight && w.inflight[id].announced < |w.inflight[id].writes| && !w.inflight[id].stashing
    case Stash(id) => id in w.inflight && w.inflight[id].stashing && w.inflight[id].announced < |w.inflight[id].writes|
    case ApplyRead(id) => Applicable(w, id) && w.inflight[id].stage.Idle?
    case ApplyTake(id) => Applicable(w, id) && w.inflight[id].stage.Read?
    case ApplyInsert(id) => Applicable(w, id) && w.inflight[id].stage.Took?
    case Update(id) => Applicable(w, id) && w.inflight[id].stage.Idle? && id in w.t.slots
    case PushCheck(id, l) => (id, l) in w.pushing
    case EvictNow(id, l) => (id, l) in w.evicting
    case BucketPut(id, l) => (id, l) in w.bucketing
    case SealMark(p) => p in w.closed && w.t.attached
    case SealTake(p) => p in w.t.sealed
    case SealDrop(p, id) => (p, id) in w.sealing
    case Relocate(id, l) => id in w.applied && id in w.t.slots && id !in w.inflight && l !in w.disk && PartOf(l) in w.closed
    case Remove(id) => id in w.applied && id !in w.inflight
  }

  predicate Holds(t: Tier, id: nat) { id in t.slots && t.slots[id].payload.Some? }

  /** Excludes the announcements that lose a location: the slot is resident, so
      `set_loc` writes the location there, while an apply of that id is under
      way or a stashed location is waiting for one, either of which will
      overwrite it. */
  predicate Orderly(w: World, a: Action) {
    a.Announce? && a.id in w.inflight && Holds(w.t, a.id) ==> w.inflight[a.id].stage.Idle? && a.id !in w.t.pending
  }

  /** What a process-wide writer lock held from `prepare` to the end of the apply
      gives (crates/server/src/lib.rs:94-99): no write is announced while another
      write of its id is announced and not applied. */
  predicate OneWriter(w: World, a: Action) {
    a.Announce? && a.id in w.inflight ==> w.inflight[a.id].announced == 0
  }

  function Flying(w: World, id: nat, f: Flight): World {
    w.(inflight := if f.writes == [] then w.inflight - {id} else w.inflight[id := f])
  }

  function DoAppend(w: World, id: nat, c: Concept, l: Loc): World {
    var f := if id in w.inflight then w.inflight[id] else Flight([], 0, false, Idle);
    Flying(w, id, f.(writes := f.writes + [Write(c, l)])).(disk := w.disk[l := c])
  }

  /** `set_loc` with `resident = true`, up to the release of the slot. */
  function DoAnnounce(w: World, id: nat): World
    requires Enabled(w, Announce(id))
  {
    var f := w.inflight[id];
    var l := f.writes[f.announced].loc;
    if !Holds(w.t, id) then Flying(w, id, f.(stashing := true))
    else Flying(w, id, f.(announced := f.announced + 1)).(t := Located(w.t, id, l), pushing := w.pushing + {(id, l)})
  }

  /** The rest of that `set_loc`, when the slot was absent or evicted. */
  function DoStash(w: World, id: nat): World
    requires Enabled(w, Stash(id))
  {
    var f := w.inflight[id];
    Flying(w, id, f.(announced := f.announced + 1, stashing := false))
      .(t := w.t.(pending := w.t.pending[id := f.writes[f.announced].loc]))
  }

  function DoRead(w: World, id: nat): World
    requires Enabled(w, ApplyRead(id))
  {
    Flying(w, id, w.inflight[id].(stage := Read(if id in w.t.slots then w.t.slots[id].loc else None)))
  }

  function Pending(w: World, id: nat): Option<Loc> { if id in w.t.pending then Some(w.t.pending[id]) else None }

  function DoTake(w: World, id: nat): World
    requires Enabled(w, ApplyTake(id))
  {
    var f := w.inflight[id];
    var taken := Pending(w, id);
    Flying(w, id, f.(stage := Took(if taken.Some? then taken else f.stage.prev, taken)))
      .(t := w.t.(pending := w.t.pending - {id}))
  }

  /** The oldest write becomes the applied version, held at `l`. */
  function Landed(w: World, id: nat, l: Option<Loc>, taken: Option<Loc>): World
    requires Applicable(w, id)
  {
    var f := w.inflight[id];
    Flying(w, id, Flight(f.writes[1..], f.announced - 1, f.stashing, Idle))
      .(t := w.t.(slots := w.t.slots[id := NewSlot(f.writes[0].c, l)]), applied := w.applied[id := f.writes[0].c],
        pushing := w.pushing + if taken.Some? then {(id, taken.value)} else {})
  }

  function DoInsert(w: World, id: nat): World
    requires Enabled(w, ApplyInsert(id))
  {
    Landed(w, id, w.inflight[id].stage.loc, w.inflight[id].stage.taken)
  }

  /** `apply_concept_update` holds the slot from start to end. */
  function DoUpdate(w: World, id: nat): World
    requires Enabled(w, Update(id))
  {
    var taken := Pending(w, id);
    Landed(w.(t := w.t.(pending := w.t.pending - {id})), id, if taken.Some? then taken else w.t.slots[id].loc, taken)
  }

  /** `sealable_push`, first lock: has the partition sealed already? */
  function DoPushCheck(w: World, id: nat, l: Loc): World {
    var w1 := w.(pushing := w.pushing - {(id, l)});
    if PartOf(l) in w.t.sealed && w.t.attached then w1.(evicting := w.evicting + {(id, l)})
    else w1.(bucketing := w.bucketing + {(id, l)})
  }

  function Bucketed(t: Tier, id: nat, p: Partition): Tier {
    t.(sealable := t.sealable[p := (if p in t.sealable then t.sealable[p] else []) + [id]])
  }

  function DoEvictNow(w: World, id: nat, l: Loc): World {
    w.(evicting := w.evicting - {(id, l)},
       t := if id in w.t.slots && w.t.slots[id].loc == Some(l) then Evict(w.t, id) else w.t)
  }

  /** `partition_sealed` takes the bucket out before touching any slot. */
  function DoSealTake(w: World, p: Partition): World {
    var ids := if p in w.t.sealable then w.t.sealable[p] else [];
    w.(t := w.t.(sealable := w.t.sealable - {p}), sealing := w.sealing + set i | i in ids :: (p, i))
  }

  predicate LocatedIn(t: Tier, id: nat, p: Partition) {
    id in t.slots && t.slots[id].loc.Some? && PartOf(t.slots[id].loc.value) == p
  }

  function DoSealDrop(w: World, p: Partition, id: nat): World {
    w.(sealing := w.sealing - {(p, id)}, t := if LocatedIn(w.t, id, p) then Evict(w.t, id) else w.t)
  }

  /** `set_loc` with `resident = false`, after compaction rewrote the record. */
  function DoRelocate(w: World, id: nat, l: Loc): World
    requires Enabled(w, Relocate(id, l))
  {
    var moved := Located(w.t, id, l);
    w.(disk := w.disk[l := w.applied[id]],
       t := if w.t.attached then Evict(moved, id) else moved,
       pushing := if w.t.attached then w.pushing else w.pushing + {(id, l)})
  }

  function Next(w: World, a: Action): World {
    if !Enabled(w, a) then w else
    match a
    case Append(id, c, l) => DoAppend(w, id, c, l)
    case Close(p) => w.(closed := w.closed + {p})
    case Attach => w.(t := w.t.(attached := true))
    case Retire(p) => w.(closed := w.closed - {p}, retired := w.retired + {p})
    case Announce(id) => DoAnnounce(w, id)
    case Stash(id) => DoStash(w, id)
    case ApplyRead(id) => DoRead(w, id)
    case ApplyTake(id) => DoTake(w, id)
    case ApplyInsert(id) => DoInsert(w, id)
    case Update(id) => DoUpdate(w, id)
    case PushCheck(id, l) => DoPushCheck(w, id, l)
    case EvictNow(id, l) => DoEvictNow(w, id, l)
    case BucketPut(id, l) => w.(bucketing := w.bucketing - {(id, l)}, t := Bucketed(w.t, id, PartOf(l)))
    case SealMark(p) => w.(t := w.t.(sealed := w.t.sealed + {p}))
    case SealTake(p) => DoSealTake(w, p)
    case SealDrop(p, id) => DoSealDrop(w, p, id)
    case Relocate(id, l) => DoRelocate(w, id, l)
    case Remove(id) => w.(t := w.t.(slots := w.t.slots - {id}), applied := w.applied - {id})
  }

  function Run(w: World, actions: seq<Action>): World {
    if actions == [] then w else Next(Run(w, actions[..|actions| - 1]), actions[|actions| - 1])
  }

  predicate OrderlyRun(w: World, actions: seq<Action>) {
    actions == [] ||
    (var l := |actions| - 1;
     OrderlyRun(w, actions[..l]) && Orderly(Run(w, actions[..l]), actions[l]))
  }

  const START := World(Tier(map[], map[], {}, map[], false), map[], {}, {}, map[], map[], {}, {}, {}, {})

  // ---------- reading ----------

  datatype Fetched = Found(c: Concept) | Unknown | Unavailable

  /** The payload source: sealed partitions only, and the right concept. */
  function ReadBack(w: World, id: nat, l: Option<Loc>): Fetched {
    if l.None? || !w.t.attached then Unavailable else
    if l.value !in w.disk || PartOf(l.value) !in w.closed then Unavailable else
    if w.disk[l.value].id != id then Unavailable else Found(w.disk[l.value])
  }

  /** `get_concept`. */
  function GetConcept(w: World, id: nat): Fetched {
    if id !in w.t.slots then Unknown else
    var s := w.t.slots[id];
    if s.payload.Some? then Found(Concept(id, s.ctype, s.name, s.payload.value.description, s.payload.value.properties))
    else ReadBack(w, id, s.loc)
  }

  /** The same read on a graph that keeps every payload. */
  function GetResident(w: World, id: nat): Fetched {
    if id in w.applied then Found(w.applied[id]) else Unknown
  }

  // ---------- the invariant ----------

  /** Location of the last announced write. */
  function Latest(f: Flight): Loc
    requires 0 < f.announced <= |f.writes|
  {
    f.writes[f.announced - 1].loc
  }

  ghost predicate WritesOk(w: World, id: nat, f: Flight) {
    && f.writes != [] && f.announced <= |f.writes|
    && forall k :: 0 <= k < |f.writes| ==> WriteOk(w, id, f.writes[k])
  }

  ghost predicate WriteOk(w: World, id: nat, wr: Write) {
    && wr.loc in w.disk && w.disk[wr.loc] == wr.c && wr.c.id == id && TypeOf(w, id) == Some(wr.c.ctype)
    && PartOf(wr.loc) !in w.retired
  }

  /** The latest announced location is on its way to the slot, or there. */
  ghost predicate LatestKept(w: World, id: nat, f: Flight)
    requires 0 < f.announced <= |f.writes|
  {
    match f.stage
    case Idle => id in w.t.pending || (id in w.t.slots && w.t.slots[id].loc == Some(Latest(f)))
    case Read(prev) => id in w.t.pending || prev == Some(Latest(f))
    case Took(l, taken) => id in w.t.pending || l == Some(Latest(f))
  }

  /** What an apply has in hand is the location of an announced write. */
  ghost predicate TookOk(f: Flight) {
    f.stage.Took? ==>
      && (f.stage.taken.Some? ==> f.stage.taken == f.stage.loc)
      && exists k :: AtWrite(f, k, f.stage.loc)
  }

  predicate AtWrite(f: Flight, k: nat, l: Option<Loc>) { k < f.announced <= |f.writes| && l == Some(f.writes[k].loc) }

  ghost predicate FlightOk(w: World, id: nat)
    requires id in w.inflight
  {
    var f := w.inflight[id];
    && WritesOk(w, id, f)
    && (f.stage.Idle? || f.announced > 0)
    && (f.announced > 0 ==> LatestKept(w, id, f))
    && (f.stashing ==> f.announced < |f.writes|) && TookOk(f)
  }

  ghost predicate PendingOk(w: World, id: nat)
    requires id in w.t.pending
  {
    && Applicable(w, id) && w.t.pending[id] == Latest(w.inflight[id])
    && (w.inflight[id].stage.Took? ==> w.inflight[id].announced > 1)
  }

  /** `c` is an announced write of `id` that is not yet applied. */
  ghost predicate Landing(w: World, id: nat, c: Concept) {
    id in w.inflight && exists k :: 0 <= k < w.inflight[id].announced <= |w.inflight[id].writes| && w.inflight[id].writes[k].c == c
  }

  /** The record at a slot's location is the applied version, or one that is landing. */
  ghost predicate LocOk(w: World, id: nat)
    requires id in w.t.slots && id in w.applied && w.t.slots[id].loc.Some?
  {
    var l := w.t.slots[id].loc.value;
    l in w.disk && w.disk[l].id == id && PartOf(l) !in w.retired && (w.disk[l] == w.applied[id] || Landing(w, id, w.disk[l]))
  }

  ghost predicate SlotOk(w: World, id: nat)
    requires id in w.t.slots
  {
    var s := w.t.slots[id];
    && id in w.applied && w.applied[id].id == id && w.applied[id].ctype == s.ctype && w.applied[id].name == s.name
    && (s.loc.Some? ==> LocOk(w, id))
    && (match s.payload
        case Some(p) => p == Payload(w.applied[id].description, w.applied[id].properties)
        case None => s.loc.Some? && PartOf(s.loc.value) in w.closed && w.t.attached)
  }

  ghost predicate IdOk(w: World, id: nat) {
    && (id in w.applied ==> id in w.t.slots)
    && (id in w.t.slots ==> SlotOk(w, id))
    && (id in w.inflight ==> FlightOk(w, id))
    && (id in w.t.pending ==> PendingOk(w, id))
  }

  ghost predicate ListsOk(w: World) {
    && w.t.sealed <= w.closed + w.retired && w.closed !! w.retired && (w.t.sealed != {} ==> w.t.attached)
    && (forall x :: x in w.evicting ==> PartOf(x.1) in w.t.sealed)
    && (forall x :: x in w.sealing ==> x.0 in w.t.sealed)
  }

  /** An evicted slot is always located in a sealed, readable partition. */
  ghost predicate Inv(w: World) {
    (forall id :: IdOk(w, id)) && ListsOk(w)
  }

  /** What every step owes to the ids it does not touch. */
  ghost predicate SameFor(w: World, n: World, id: nat) {
    && (id in w.t.slots <==> id in n.t.slots) && (id in w.t.slots ==> n.t.slots[id] == w.t.slots[id])
    && (id in w.applied <==> id in n.applied) && (id in w.applied ==> n.applied[id] == w.applied[id])
    && (id in w.inflight <==> id in n.inflight) && (id in w.inflight ==> n.inflight[id] == w.inflight[id])
    && (id in w.t.pending <==> id in n.t.pending) && (id in w.t.pending ==> n.t.pending[id] == w.t.pending[id])
  }

  ghost predicate Grows(w: World, n: World) {
    && (forall l :: l in w.disk ==> l in n.disk && n.disk[l] == w.disk[l])
    && w.closed <= n.closed && n.retired == w.retired && (w.t.attached ==> n.t.attached)
  }

  lemma UntouchedOk(w: World, n: World, id: nat)
    requires IdOk(w, id) && SameFor(w, n, id) && Grows(w, n)
    ensures IdOk(n, id)
  {
    if id in n.inflight {
      forall k | 0 <= k < |n.inflight[id].writes| ensures WriteOk(n, id, n.inflight[id].writes[k]) {
        assert WriteOk(w, id, w.inflight[id].writes[k]);
      }
    }
  }

  /** A step that touches one id needs its obligations there only. */
  lemma OneId(w: World, n: World, id: nat)
    requires Inv(w) && Grows(w, n) && ListsOk(n) && IdOk(n, id)
    requires forall i :: i != id ==> SameFor(w, n, i)
    ensures Inv(n)
  {
    forall i ensures IdOk(n, i) {
      assert IdOk(w, i);
      if i != id { UntouchedOk(w, n, i); }
    }
  }

  lemma AppendInv(w: World, id: nat, c: Concept, l: Loc)
    requires Inv(w) && Enabled(w, Append(id, c, l))
    ensures Inv(DoAppend(w, id, c, l))
  {
    var n := DoAppend(w, id, c, l);
    var f := n.inflight[id];
    assert IdOk(w, id);
    forall k | 0 <= k < |f.writes| ensures WriteOk(n, id, f.writes[k]) {
      if k < |f.writes| - 1 { assert WriteOk(w, id, w.inflight[id].writes[k]); }
    }
    if id in w.inflight && w.inflight[id].stage.Took? {
      var k: nat :| AtWrite(w.inflight[id], k, w.inflight[id].stage.loc);
      assert AtWrite(f, k, f.stage.loc);
    }
    if id in w.inflight && id in n.t.slots && n.t.slots[id].loc.Some? {
      var d := n.disk[n.t.slots[id].loc.value];
      if Landing(w, id, d) {
        var k :| 0 <= k < w.inflight[id].announced <= |w.inflight[id].writes| && w.inflight[id].writes[k].c == d;
        assert f.writes[k].c == d;
      }
    }
    OneId(w, n, id);
  }

  lemma AnnounceInv(w: World, id: nat)
    requires Inv(w) && Enabled(w, Announce(id)) && Orderly(w, Announce(id))
    ensures Inv(DoAnnounce(w, id))
  {
    var n := DoAnnounce(w, id);
    var f, g := w.inflight[id], n.inflight[id];
    assert IdOk(w, id);
    forall k | 0 <= k < |g.writes| ensures WriteOk(n, id, g.writes[k]) { assert WriteOk(w, id, f.writes[k]); }
    if Holds(w.t, id) {
      assert g.writes[f.announced].loc == Latest(g);
      assert Landing(n, id, g.writes[f.announced].c);
    } else if id in w.t.slots && w.t.slots[id].loc.Some? {
      LandingStays(w, n, id, w.disk[w.t.slots[id].loc.value]);
    }
    if f.stage.Took? {
      var k: nat :| AtWrite(f, k, f.stage.loc);
      assert AtWrite(g, k, g.stage.loc);
    }
    OneId(w, n, id);
  }

  lemma StashInv(w: World, id: nat)
    requires Inv(w) && Enabled(w, Stash(id))
    ensures Inv(DoStash(w, id))
  {
    var n := DoStash(w, id);
    var f, g := w.inflight[id], n.inflight[id];
    assert IdOk(w, id);
    forall k | 0 <= k < |g.writes| ensures WriteOk(n, id, g.writes[k]) { assert WriteOk(w, id, f.writes[k]); }
    if id in w.t.slots && w.t.slots[id].loc.Some? { LandingStays(w, n, id, w.disk[w.t.slots[id].loc.value]); }
    if f.stage.Took? {
      var k: nat :| AtWrite(f, k, f.stage.loc);
      assert AtWrite(g, k, g.stage.loc);
    }
    OneId(w, n, id);
  }

  lemma LandingStays(w: World, n: World, id: nat, c: Concept)
    requires id in w.inflight ==> id in n.inflight
    requires id in w.inflight ==> n.inflight[id].writes == w.inflight[id].writes
    requires id in w.inflight ==> w.inflight[id].announced <= n.inflight[id].announced <= |w.inflight[id].writes|
    ensures Landing(w, id, c) ==> Landing(n, id, c)
  {
    if Landing(w, id, c) {
      var k :| 0 <= k < w.inflight[id].announced <= |w.inflight[id].writes| && w.inflight[id].writes[k].c == c;
      assert n.inflight[id].writes[k].c == c;
    }
  }

  /** Stage bookkeeping keeps the writes. */
  lemma StagedInv(w: World, n: World, id: nat)
    requires Inv(w) && Applicable(w, id)
    requires n.t == w.t.(pending := n.t.pending) && n == w.(t := n.t, inflight := n.inflight)
    requires id in n.inflight && n.inflight == w.inflight[id := w.inflight[id].(stage := n.inflight[id].stage)]
    requires n.t.pending == w.t.pending || n.t.pending == w.t.pending - {id}
    requires LatestKept(n, id, n.inflight[id]) && TookOk(n.inflight[id])
    requires id in n.t.pending ==> !n.inflight[id].stage.Took?
    ensures Inv(n)
  {
    assert IdOk(w, id);
    var f, g := w.inflight[id], n.inflight[id];
    forall k | 0 <= k < |g.writes| ensures WriteOk(n, id, g.writes[k]) { assert WriteOk(w, id, f.writes[k]); }
    if id in w.t.slots && w.t.slots[id].loc.Some? { LandingStays(w, n, id, w.disk[w.t.slots[id].loc.value]); }
    OneId(w, n, id);
  }

  /** The version that lands is at the location of an announced write, its own
      or a later one; a location stashed meanwhile is that of the last. */
  lemma LandedInv(w: World, id: nat, l: Option<Loc>, j: nat, taken: Option<Loc>)
    requires Inv(w) && Applicable(w, id) && AtWrite(w.inflight[id], j, l)
    requires id in w.t.pending ==> w.inflight[id].announced > 1
    requires id !in w.t.pending ==> l == Some(Latest(w.inflight[id]))
    ensures Inv(Landed(w, id, l, taken))
  {
    var n := Landed(w, id, l, taken);
    var f := w.inflight[id];
    assert IdOk(w, id);
    assert WriteOk(w, id, f.writes[0]) && WriteOk(w, id, f.writes[j]);
    if j > 0 {
      assert f.writes[1..][j - 1] == f.writes[j];
      assert n.inflight[id].writes[j - 1].c == w.disk[l.value];
      assert Landing(n, id, w.disk[l.value]);
    }
    if id in n.inflight {
      var g := n.inflight[id];
      forall k | 0 <= k < |g.writes| ensures WriteOk(n, id, g.writes[k]) {
        assert g.writes[k] == f.writes[k + 1];
        assert WriteOk(w, id, f.writes[k + 1]);
      }
      if g.announced > 0 { assert g.writes[g.announced - 1] == f.writes[f.announced - 1]; }
    }
    OneId(w, n, id);
  }

  lemma InsertInv(w: World, id: nat)
    requires Inv(w) && Enabled(w, ApplyInsert(id))
    ensures Inv(DoInsert(w, id))
  {
    assert IdOk(w, id);
    var f := w.inflight[id];
    var j: nat :| AtWrite(f, j, f.stage.loc);
    LandedInv(w, id, f.stage.loc, j, f.stage.taken);
  }

  lemma TakeInv(w: World, id: nat)
    requires Inv(w) && Enabled(w, ApplyTake(id))
    ensures Inv(DoTake(w, id))
  {
    assert IdOk(w, id);
    var f, n := w.inflight[id], DoTake(w, id);
    assert AtWrite(n.inflight[id], f.announced - 1, n.inflight[id].stage.loc);
    StagedInv(w, n, id);
  }

  lemma ApplyInv(w: World, id: nat)
    requires Inv(w)
    ensures Enabled(w, ApplyRead(id)) ==> Inv(DoRead(w, id))
    ensures Enabled(w, ApplyTake(id)) ==> Inv(DoTake(w, id))
    ensures Enabled(w, ApplyInsert(id)) ==> Inv(DoInsert(w, id))
    ensures Enabled(w, Update(id)) ==> Inv(DoUpdate(w, id))
  {
    assert IdOk(w, id);
    if Enabled(w, ApplyRead(id)) { StagedInv(w, DoRead(w, id), id); }
    if Enabled(w, ApplyTake(id)) { TakeInv(w, id); }
    if Enabled(w, ApplyInsert(id)) { InsertInv(w, id); }
    if Enabled(w, Update(id)) { UpdateInv(w, id); }
  }

  lemma UpdateInv(w: World, id: nat)
    requires Inv(w) && Enabled(w, Update(id))
    ensures Inv(DoUpdate(w, id))
  {
    hide LocOk, WritesOk;
    assert IdOk(w, id);
    // Taking the pending location and landing in one go.
    var l := Some(Latest(w.inflight[id]));
    var w1 := Flying(w, id, w.inflight[id].(stage := Took(l, Pending(w, id)))).(t := w.t.(pending := w.t.pending - {id}));
    var f := w.inflight[id];
    assert AtWrite(w1.inflight[id], f.announced - 1, l);
    StagedInv(w, w1, id);
    LandedInv(w1, id, l, f.announced - 1, Pending(w, id));
    assert DoUpdate(w, id) == Landed(w1, id, l, Pending(w, id));
  }

  /** Dropping a payload is safe wherever its partition is known sealed. */
  lemma EvictInv(w: World, id: nat)
    requires Inv(w) && id in w.t.slots && w.t.slots[id].loc.Some? && PartOf(w.t.slots[id].loc.value) in w.t.sealed
    ensures Inv(w.(t := Evict(w.t, id)))
  {
    var n := w.(t := Evict(w.t, id));
    assert IdOk(w, id);
    if id in w.inflight {
      forall k | 0 <= k < |w.inflight[id].writes| ensures WriteOk(n, id, n.inflight[id].writes[k]) {
        assert WriteOk(w, id, w.inflight[id].writes[k]);
      }
    }
    OneId(w, n, id);
  }

  /** Work lists, buckets and store growth touch no id. */
  lemma NoId(w: World, n: World)
    requires Inv(w) && Grows(w, n) && ListsOk(n)
    requires n.t.slots == w.t.slots && n.t.pending == w.t.pending && n.applied == w.applied && n.inflight == w.inflight
    ensures Inv(n)
  {
    forall i ensures IdOk(n, i) {
      assert IdOk(w, i);
      UntouchedOk(w, n, i);
    }
  }

  lemma WorkInv(w: World, a: Action)
    requires Inv(w) && Enabled(w, a)
    requires a.PushCheck? || a.BucketPut? || a.SealTake? || a.Close? || a.Attach? || a.SealMark?
    ensures Inv(Next(w, a))
  {
    hide IdOk;
    NoId(w, Next(w, a));
  }

  lemma DropInv(w: World, a: Action)
    requires Inv(w) && Enabled(w, a) && (a.EvictNow? || a.SealDrop?)
    ensures Inv(Next(w, a))
  {
    hide IdOk;
    if a.EvictNow? {
      assert PartOf((a.id, a.loc).1) in w.t.sealed;
      var w1 := w.(evicting := w.evicting - {(a.id, a.loc)});
      NoId(w, w1);
      if a.id in w.t.slots && w.t.slots[a.id].loc == Some(a.loc) { EvictInv(w1, a.id); }
    } else {
      assert (a.part, a.id).0 in w.t.sealed;
      var w1 := w.(sealing := w.sealing - {(a.part, a.id)});
      NoId(w, w1);
      if LocatedIn(w.t, a.id, a.part) { EvictInv(w1, a.id); }
    }
  }

  /** Nothing is located in a partition that compaction deletes. */
  lemma RetireInv(w: World, p: Partition)
    requires Inv(w) && Enabled(w, Retire(p))
    ensures Inv(Next(w, Retire(p)))
  {
    var n := Next(w, Retire(p));
    forall id ensures IdOk(n, id) {
      assert IdOk(w, id);
      if id in w.inflight {
        forall k | 0 <= k < |w.inflight[id].writes| ensures WriteOk(n, id, n.inflight[id].writes[k]) {
          assert WriteOk(w, id, w.inflight[id].writes[k]);
        }
      }
      if id in w.t.slots { assert !LocatedIn(w.t, id, p); }
    }
  }

  lemma SettledInv(w: World, a: Action)
    requires Inv(w) && Enabled(w, a) && (a.Relocate? || a.Remove?)
    ensures Inv(Next(w, a))
  {
    assert IdOk(w, a.id);
    OneId(w, Next(w, a), a.id);
  }

  lemma StepInv(w: World, a: Action)
    requires Inv(w) && Orderly(w, a)
    ensures Inv(Next(w, a))
  {
    if Enabled(w, a) {
      match a
      case Append(id, c, l) => AppendInv(w, id, c, l);
      case Announce(id) => AnnounceInv(w, id);
      case Stash(id) => StashInv(w, id);
      case Retire(p) => RetireInv(w, p);
      case ApplyRead(id) => ApplyInv(w, id);
      case ApplyTake(id) => ApplyInv(w, id);
      case ApplyInsert(id) => ApplyInv(w, id);
      case Update(id) => ApplyInv(w, id);
      case Relocate(_, _) => SettledInv(w, a);
      case Remove(_) => SettledInv(w, a);
      case EvictNow(_, _) => DropInv(w, a);
      case SealDrop(_, _) => DropInv(w, a);
      case _ => WorkInv(w, a);
    }
  }

  lemma {:induction false} RunInv(actions: seq<Action>)
    requires OrderlyRun(START, actions)
    ensures Inv(Run(START, actions))
  {
    if actions != [] {
      RunInv(actions[..|actions| - 1]);
      StepInv(Run(START, actions[..|actions| - 1]), actions[|actions| - 1]);
    }
  }

  // ---------- evicted and resident are indistinguishable ----------

  /** What `get_concept` may answer: the last applied version and, while
      announced writes of that very id are in flight, possibly one of those. */
  ghost predicate Faithful(w: World, id: nat, r: Fetched) {
    r == GetResident(w, id) || (r.Found? && id in w.applied && Landing(w, id, r.c))
  }

  /** In every orderly interleaving a read returns the last applied version
      whenever no write to that id is in flight, wherever its payload is. */
  lemma EvictionInvisible(actions: seq<Action>, id: nat)
    requires OrderlyRun(START, actions)
    ensures var w := Run(START, actions);
      && Faithful(w, id, GetConcept(w, id))
      && (id !in w.inflight ==> GetConcept(w, id) == GetResident(w, id))
  {
    RunInv(actions);
    assert IdOk(Run(START, actions), id);
  }

  /** An evicted slot has a location, in a partition the store has sealed. */
  lemma EvictedIsSealed(actions: seq<Action>, id: nat)
    requires OrderlyRun(START, actions)
    ensures var w := Run(START, actions);
      id in w.t.slots && w.t.slots[id].payload.None? ==>
        w.t.slots[id].loc.Some? && PartOf(w.t.slots[id].loc.value) in w.closed && w.t.attached
  {
    RunInv(actions);
    assert IdOk(Run(START, actions), id);
  }

  /** `get_concept` lets go of the slot before it asks the source: the slot as
      it was in `w`, the source as it is in `n`. */
  function GetAcross(w: World, n: World, id: nat): Fetched {
    if id in w.t.slots && w.t.slots[id].payload.None? then ReadBack(n, id, w.t.slots[id].loc) else GetConcept(w, id)
  }

  /** Whatever happens in between, the location read from the slot yields the
      same record exactly when compaction has not deleted its partition. */
  lemma LateRead(w: World, actions: seq<Action>, id: nat, l: Option<Loc>)
    requires w.closed !! w.retired && ReadBack(w, id, l).Found?
    ensures Run(w, actions).closed !! Run(w, actions).retired
    ensures ReadBack(Run(w, actions), id, l) ==
      if PartOf(l.value) in Run(w, actions).retired then Unavailable else ReadBack(w, id, l)
  {
    var kept := SourceKept(w, actions, l.value);
  }

  lemma {:induction false} SourceKept(w: World, actions: seq<Action>, l: Loc) returns (n: World)
    requires w.closed !! w.retired && l in w.disk && w.t.attached && PartOf(l) in w.closed
    ensures n == Run(w, actions) && n.closed !! n.retired && l in n.disk && n.disk[l] == w.disk[l] && n.t.attached
    ensures PartOf(l) in n.closed + n.retired
  {
    n := Run(w, actions);
    if actions != [] {
      var before := SourceKept(w, actions[..|actions| - 1], l);
      StepReads(before, actions[|actions| - 1], l);
    }
  }

  lemma StepReads(w: World, a: Action, l: Loc)
    ensures var n := Next(w, a);
      && (l in w.disk ==> l in n.disk && n.disk[l] == w.disk[l]) && (w.t.attached ==> n.t.attached)
      && (PartOf(l) in w.closed + w.retired ==> PartOf(l) in n.closed + n.retired) && (w.closed !! w.retired ==> n.closed !! n.retired)
  {
  }

  /** The slot was evicted when the read began, and compaction has deleted its
      partition since. */
  predicate DeletedUnder(w: World, n: World, id: nat) {
    id in w.t.slots && w.t.slots[id].payload.None? && w.t.slots[id].loc.Some? && PartOf(w.t.slots[id].loc.value) in n.retired
  }

  /** A read in two steps, with anything between them, gives what one step would
      have given when it began, unless the partition is deleted under it: then
      there is no answer. */
  lemma ReadAcross(actions: seq<Action>, between: seq<Action>, id: nat)
    requires OrderlyRun(START, actions)
    ensures var w := Run(START, actions); var n := Run(w, between);
      if DeletedUnder(w, n, id) then GetAcross(w, n, id) == Unavailable
      else GetAcross(w, n, id) == GetConcept(w, id) && Faithful(w, id, GetAcross(w, n, id))
  {
    var w := Run(START, actions);
    RunInv(actions);
    assert IdOk(w, id);
    if id in w.t.slots && w.t.slots[id].payload.None? { LateRead(w, between, id, w.t.slots[id].loc); }
  }
}
