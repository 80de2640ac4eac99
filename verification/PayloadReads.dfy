/** When a disorderly announcement is read (crates/graph/src/graph.rs): the slot
    it leaves at an older record misleads a read exactly when an eviction of
    that record still waits, or a push can reach the bucket of its partition
    before the seal. */
module PayloadReads {
  import opened Collections
  import opened GraphState
  import opened PayloadTier
  import opened PayloadRuns

  /** A read answers a version that is neither applied nor landing. */
  ghost predicate Wrong(w: World, id: nat) {
    id in w.applied && GetConcept(w, id).Found? && !Faithful(w, id, GetConcept(w, id))
  }

  /** Some orderly continuation ends in a wrong read. */
  ghost predicate Misleads(w: World, id: nat) { exists more :: OrderlyRun(w, more) && Wrong(Run(w, more), id) }

  /** What a disorderly announcement needs to mislead a read: a location that is
      stashed or was taken from the stash, an eviction of the last announced
      location that waits, or a new location in the same partition, which has
      not sealed. */
  ghost predicate Exposed(w: World, id: nat)
    requires Enabled(w, Announce(id))
  {
    && Applicable(w, id)
    && (|| id in w.t.pending || (w.inflight[id].stage.Took? && w.inflight[id].stage.taken.Some?) || Due(w, id, LastLoc(w, id))
        || (PartOf(NewLoc(w, id)) == PartOf(LastLoc(w, id)) && PartOf(LastLoc(w, id)) !in w.t.sealed))
  }

  function NewLoc(w: World, id: nat): Loc
    requires Enabled(w, Announce(id))
  {
    w.inflight[id].writes[w.inflight[id].announced].loc
  }

  // ---------- an eviction that waits comes ----------

  /** A move of the work lists only. */
  predicate SameSlots(w: World, n: World) {
    && n.t.slots == w.t.slots && n.t.pending == w.t.pending && n.t.sealed == w.t.sealed
    && n.applied == w.applied && n.inflight == w.inflight && n.disk == w.disk && n.retired == w.retired
  }

  /** One or two steps from an eviction once the partition has sealed. */
  predicate Ready(w: World, id: nat, m: Loc) {
    || (id, m) in w.pushing || (id, m) in w.evicting || (PartOf(m), id) in w.sealing
    || (PartOf(m) in w.t.sealable && id in w.t.sealable[PartOf(m)])
  }

  lemma BucketReady(w: World, x: (nat, Loc), id: nat, m: Loc)
    requires x in w.bucketing && Into(x, id, PartOf(m))
    ensures SameSlots(w, Next(w, BucketPut(x.0, x.1))) && Ready(Next(w, BucketPut(x.0, x.1)), id, m)
  {
  }

  lemma PushBuckets(w: World, x: (nat, Loc), id: nat, m: Loc)
    requires x in w.pushing && Into(x, id, PartOf(m)) && PartOf(m) !in w.t.sealed
    ensures SameSlots(w, Next(w, PushCheck(x.0, x.1))) && x in Next(w, PushCheck(x.0, x.1)).bucketing
  {
  }

  /** What is due is brought to the bucket. */
  lemma Collect(w: World, id: nat, m: Loc) returns (more: seq<Action>)
    requires Due(w, id, m)
    ensures NoAnnouncement(more) && SameSlots(w, Run(w, more)) && Ready(Run(w, more), id, m)
  {
    hide Next;
    var p := PartOf(m);
    if Ready(w, id, m) {
      more := [];
    } else if x :| x in w.bucketing && Into(x, id, p) {
      BucketReady(w, x, id, m);
      RunOne(w, BucketPut(x.0, x.1));
      more := [BucketPut(x.0, x.1)];
    } else {
      var x :| x in w.pushing && Into(x, id, p);
      PushBuckets(w, x, id, m);
      BucketReady(Next(w, PushCheck(x.0, x.1)), x, id, m);
      RunTwo(w, PushCheck(x.0, x.1), BucketPut(x.0, x.1));
      more := [PushCheck(x.0, x.1), BucketPut(x.0, x.1)];
    }
  }

  lemma SealedWorld(w: World, p: Partition)
    requires p !in w.retired
    ensures var n := Next(Next(Next(w, Attach), Close(p)), SealMark(p));
      n == w.(t := w.t.(sealed := w.t.sealed + {p}, attached := true), closed := w.closed + {p})
  {
  }

  /** The slot of `id` has let its payload go. */
  predicate Evicted(w: World, n: World, id: nat) {
    id in w.t.slots && n.t.slots == w.t.slots[id := w.t.slots[id].(payload := None)]
    && n == w.(t := n.t, pushing := n.pushing, evicting := n.evicting, bucketing := n.bucketing, sealing := n.sealing)
    && n.t.attached == w.t.attached
  }

  lemma PushEvicts(w: World, id: nat, m: Loc)
    requires (id, m) in w.pushing && PartOf(m) in w.t.sealed && w.t.attached && id in w.t.slots && w.t.slots[id].loc == Some(m)
    ensures Evicted(w, Next(Next(w, PushCheck(id, m)), EvictNow(id, m)), id)
  {
  }

  lemma EvictionEvicts(w: World, id: nat, m: Loc)
    requires (id, m) in w.evicting && id in w.t.slots && w.t.slots[id].loc == Some(m)
    ensures Evicted(w, Next(w, EvictNow(id, m)), id)
  {
  }

  lemma DropEvicts(w: World, id: nat, m: Loc)
    requires (PartOf(m), id) in w.sealing && id in w.t.slots && w.t.slots[id].loc == Some(m)
    ensures Evicted(w, Next(w, SealDrop(PartOf(m), id)), id)
  {
  }

  lemma BucketEvicts(w: World, id: nat, m: Loc)
    requires PartOf(m) in w.t.sealable && id in w.t.sealable[PartOf(m)] && PartOf(m) in w.t.sealed
    requires id in w.t.slots && w.t.slots[id].loc == Some(m)
    ensures Evicted(w, Next(Next(w, SealTake(PartOf(m))), SealDrop(PartOf(m), id)), id)
  {
    assert (PartOf(m), id) in Next(w, SealTake(PartOf(m))).sealing;
    DropEvicts(Next(w, SealTake(PartOf(m))), id, m);
  }

  /** In a sealed partition, what is ready evicts. */
  lemma ReadyEvicts(w: World, id: nat, m: Loc) returns (more: seq<Action>)
    requires Ready(w, id, m) && PartOf(m) in w.t.sealed && w.t.attached && id in w.t.slots && w.t.slots[id].loc == Some(m)
    ensures NoAnnouncement(more) && Evicted(w, Run(w, more), id)
  {
    hide Next, Evicted;
    if (id, m) in w.pushing {
      more := [PushCheck(id, m), EvictNow(id, m)];
      RunTwo(w, more[0], more[1]);
      PushEvicts(w, id, m);
    } else if (id, m) in w.evicting {
      more := [EvictNow(id, m)];
      RunOne(w, more[0]);
      EvictionEvicts(w, id, m);
    } else if (PartOf(m), id) in w.sealing {
      more := [SealDrop(PartOf(m), id)];
      RunOne(w, more[0]);
      DropEvicts(w, id, m);
    } else {
      more := [SealTake(PartOf(m)), SealDrop(PartOf(m), id)];
      RunTwo(w, more[0], more[1]);
      BucketEvicts(w, id, m);
    }
  }

  lemma EvictedReads(w: World, id: nat, m: Loc, c: Concept)
    requires LandedAt(w, id, m, c) && w.t.slots[id].payload.None? && w.t.attached && PartOf(m) in w.closed
    requires m in w.disk && w.disk[m].id == id && w.disk[m] != c
    ensures Wrong(w, id)
  {
  }

  /** With every announced write applied and the slot at the record of another
      version, an eviction that is due makes a read answer that version. */
  lemma DueReads(w: World, id: nat, m: Loc, c: Concept) returns (more: seq<Action>)
    requires LandedAt(w, id, m, c) && Due(w, id, m) && m in w.disk && w.disk[m].id == id && w.disk[m] != c && PartOf(m) !in w.retired
    ensures NoAnnouncement(more) && Wrong(Run(w, more), id)
  {
    hide Wrong, Next, Due, Ready;
    var p := PartOf(m);
    var collect := Collect(w, id, m);
    var v := Run(w, collect);
    var u := Next(Next(Next(v, Attach), Close(p)), SealMark(p));
    SealedWorld(v, p);
    RunTwo(v, Attach, Close(p));
    RunOne(Next(Next(v, Attach), Close(p)), SealMark(p));
    RunAppend(v, [Attach, Close(p)], [SealMark(p)]);
    assert Ready(u, id, m) by { StillReady(v, u, id, m); }
    var evict := ReadyEvicts(u, id, m);
    RunAppend(v, [Attach, Close(p)] + [SealMark(p)], evict);
    RunAppend(w, collect, [Attach, Close(p)] + [SealMark(p)] + evict);
    EvictedReads(Run(u, evict), id, m, c);
    more := collect + ([Attach, Close(p)] + [SealMark(p)] + evict);
  }

  lemma StillReady(v: World, u: World, id: nat, m: Loc)
    requires Ready(v, id, m) && u.pushing == v.pushing && u.evicting == v.evicting && u.sealing == v.sealing && u.t.sealable == v.t.sealable
    ensures Ready(u, id, m)
  {
  }

  lemma ExposedCarries(w: World, id: nat)
    requires Inv(w) && Enabled(w, Announce(id)) && !Orderly(w, Announce(id)) && Exposed(w, id)
    ensures var n := Next(w, Announce(id)); Stashed(n, id, LastLoc(w, id)) || Due(n, id, LastLoc(w, id))
  {
    assert IdOk(w, id);
    var n, m := Next(w, Announce(id)), LastLoc(w, id);
    if id !in w.t.pending && !(w.inflight[id].stage.Took? && w.inflight[id].stage.taken.Some?) {
      if Due(w, id, m) {
        MoreDue(w, n, id, m);
      } else {
        assert Into((id, NewLoc(w, id)), id, PartOf(m)) && (id, NewLoc(w, id)) in n.pushing;
      }
    }
  }

  lemma MoreDue(w: World, n: World, id: nat, m: Loc)
    requires Due(w, id, m) && w.pushing <= n.pushing && n.evicting == w.evicting && n.bucketing == w.bucketing && n.sealing == w.sealing
    requires n.t.sealed == w.t.sealed && n.t.sealable == w.t.sealable
    ensures Due(n, id, m)
  {
  }

  /** A disorderly announcement that is exposed has an orderly continuation in
      which a read answers the older version although the new one is applied. */
  lemma ExposedIsRead(w: World, id: nat) returns (more: seq<Action>)
    requires Inv(w) && Enabled(w, Announce(id)) && !Orderly(w, Announce(id)) && NewVersion(w, id) && Exposed(w, id)
    ensures OrderlyRun(Next(w, Announce(id)), more) && Wrong(Run(Next(w, Announce(id)), more), id)
  {
    hide Wrong, Due, Exposed, Next, Stashed;
    var n := Next(w, Announce(id));
    DisorderCarries(w, id);
    ExposedCarries(w, id);
    AnnounceFrame(w, id);
    var m := LastLoc(w, id);
    var applies := DisorderMisplaces(w, id);
    var e := Run(n, applies);
    var rest := DueReads(e, id, m, w.inflight[id].writes[w.inflight[id].announced].c);
    more := applies + rest;
    RunAppend(n, applies, rest);
    OrderlyAppend(n, applies, rest);
    QuietIsOrderly(e, rest);
  }

  lemma AnnounceFrame(w: World, id: nat)
    requires Enabled(w, Announce(id))
    ensures Next(w, Announce(id)).disk == w.disk && Next(w, Announce(id)).retired == w.retired
  {
  }

  // ---------- otherwise no read is misled ----------

  /** The other ids of a world. */
  function Others(w: World, id: nat): World {
    w.(t := w.t.(slots := w.t.slots - {id}, pending := w.t.pending - {id}), applied := w.applied - {id}, inflight := w.inflight - {id})
  }

  lemma OthersInv(w: World, id: nat)
    requires Inv(w)
    ensures Inv(Others(w, id))
  {
    forall i ensures IdOk(Others(w, id), i) {
      assert IdOk(w, i);
      if i != id { SameIdOk(w, Others(w, id), i); }
    }
  }

  lemma SameIdOk(w: World, n: World, i: nat)
    requires IdOk(w, i) && SameFor(w, n, i) && n.disk == w.disk && n.closed == w.closed && n.retired == w.retired && n.t.attached == w.t.attached
    ensures IdOk(n, i)
  {
    UntouchedOk(w, n, i);
  }

  lemma WholeInv(w: World, id: nat)
    requires Inv(Others(w, id)) && IdOk(w, id)
    ensures Inv(w)
  {
    forall i ensures IdOk(w, i) {
      assert IdOk(Others(w, id), i);
      if i != id { SameIdOk(Others(w, id), w, i); }
    }
  }

  /** A slot may be at the stray location `m`, but only while it is resident. */
  ghost predicate StraySlot(w: World, id: nat, m: Loc)
    requires id in w.t.slots
  {
    var s := w.t.slots[id];
    && id in w.applied && w.applied[id].id == id && w.applied[id].ctype == s.ctype && w.applied[id].name == s.name
    && (s.loc.Some? && s.loc != Some(m) ==> LocOk(w, id))
    && (s.loc == Some(m) ==> s.payload.Some?)
    && (match s.payload
        case Some(p) => p == Payload(w.applied[id].description, w.applied[id].properties)
        case None => s.loc.Some? && PartOf(s.loc.value) in w.closed && w.t.attached)
  }

  predicate IsOr(l: Option<Loc>, f: Flight, m: Loc)
    requires 0 < f.announced <= |f.writes|
  {
    l == Some(Latest(f)) || l == Some(m)
  }

  /** What the applies carry is the latest location, or the stray one. */
  ghost predicate StrayKept(w: World, id: nat, f: Flight, m: Loc)
    requires 0 < f.announced <= |f.writes|
  {
    id in w.t.pending ||
    match f.stage
    case Idle => id in w.t.slots && IsOr(w.t.slots[id].loc, f, m)
    case Read(prev) => IsOr(prev, f, m)
    case Took(l, _) => IsOr(l, f, m)
  }

  ghost predicate StrayTook(f: Flight, m: Loc) {
    f.stage.Took? ==>
      && (f.stage.taken.Some? ==> f.stage.taken == f.stage.loc && f.stage.loc != Some(m))
      && (f.stage.loc == Some(m) || exists k :: AtWrite(f, k, f.stage.loc))
  }

  /** No write from the last announced one on is at `m`. */
  predicate PastIt(f: Flight, m: Loc) { forall k :: 0 <= k < |f.writes| && k >= f.announced - 1 ==> f.writes[k].loc != m }

  ghost predicate StrayFlight(w: World, id: nat, m: Loc)
    requires id in w.inflight
  {
    var f := w.inflight[id];
    && WritesOk(w, id, f) && PastIt(f, m)
    && (f.stage.Idle? || f.announced > 0)
    && (f.announced > 0 ==> StrayKept(w, id, f, m))
    && (f.stashing ==> f.announced < |f.writes|) && StrayTook(f, m)
  }

  /** `id` after a disorderly announcement with nothing due: what it lost may
      come back to the slot, but nothing will evict it there. */
  ghost predicate Stray(w: World, id: nat, m: Loc) {
    && m in w.disk && !Due(w, id, m)
    && (id in w.applied ==> id in w.t.slots)
    && (id in w.t.slots ==> StraySlot(w, id, m))
    && (id in w.inflight ==> StrayFlight(w, id, m))
    && (id in w.t.pending ==> PendingOk(w, id))
  }

  lemma StrayIsFaithful(w: World, id: nat, m: Loc)
    requires Stray(w, id, m)
    ensures !Wrong(w, id)
  {
    hide Due;
  }

  /** A step that leaves `id` alone. */
  lemma StrayUntouched(w: World, n: World, id: nat, m: Loc)
    requires Stray(w, id, m) && SameFor(w, n, id) && Grows(w, n) && !Due(n, id, m)
    ensures Stray(n, id, m)
  {
    hide Due;
    if id in n.inflight {
      forall k | 0 <= k < |n.inflight[id].writes| ensures WriteOk(n, id, n.inflight[id].writes[k]) {
        assert WriteOk(w, id, w.inflight[id].writes[k]);
      }
    }
  }

  /** Nothing new is pushed for `id`. */
  predicate NoPush(w: World, n: World, id: nat) { forall x: (nat, Loc) :: x in n.pushing && x.0 == id ==> x in w.pushing }

  predicate OnLists(a: Action) { a.PushCheck? || a.EvictNow? || a.BucketPut? || a.SealMark? || a.SealTake? || a.SealDrop? }

  lemma ListFrame(w: World, a: Action)
    requires !OnLists(a)
    ensures var n := Next(w, a);
      && n.evicting == w.evicting && n.bucketing == w.bucketing && n.sealing == w.sealing
      && n.t.sealable == w.t.sealable && n.t.sealed == w.t.sealed
  {
    match a
    case Append(_, _, _) =>
    case Close(_) =>
    case Attach =>
    case Retire(_) =>
    case Announce(_) =>
    case Stash(_) =>
    case ApplyRead(_) =>
    case ApplyTake(_) =>
    case ApplyInsert(_) =>
    case Update(_) =>
    case Relocate(_, _) =>
    case Remove(_) =>
    case _ =>
  }

  lemma NotDueByFrame(w: World, n: World, id: nat, m: Loc)
    requires !Due(w, id, m) && NoPush(w, n, id) && n.evicting == w.evicting && n.bucketing == w.bucketing && n.sealing == w.sealing
    requires n.t.sealable == w.t.sealable && n.t.sealed == w.t.sealed
    ensures !Due(n, id, m)
  {
    var p := PartOf(m);
    forall x | x in n.pushing && Into(x, id, p) ensures p in n.t.sealed && x != (id, m) { assert x in w.pushing; }
  }

  lemma NotDuePush(w: World, i: nat, l: Loc, id: nat, m: Loc)
    requires !Due(w, id, m) && ListsOk(w) && (i, l) in w.pushing
    ensures !Due(DoPushCheck(w, i, l), id, m)
  {
    var n, p := DoPushCheck(w, i, l), PartOf(m);
    assert (i, l) in w.pushing;
    forall x | x in n.pushing && Into(x, id, p) ensures p in n.t.sealed && x != (id, m) { assert x in w.pushing; }
    if Into((i, l), id, p) { assert p in w.t.sealed; }
    forall x | x in n.bucketing ensures !Into(x, id, p) { assert x in w.bucketing || x == (i, l); }
  }

  lemma NotDueBucket(w: World, i: nat, l: Loc, id: nat, m: Loc)
    requires !Due(w, id, m) && (i, l) in w.bucketing
    ensures !Due(Next(w, BucketPut(i, l)), id, m)
  {
    var n := Next(w, BucketPut(i, l));
    assert !Into((i, l), id, PartOf(m));
    assert forall x :: x in n.pushing && Into(x, id, PartOf(m)) ==> x in w.pushing;
  }

  lemma NotDueSeal(w: World, a: Action, id: nat, m: Loc)
    requires !Due(w, id, m) && Enabled(w, a) && (a.SealMark? || a.SealTake? || a.SealDrop? || a.EvictNow?)
    ensures !Due(Next(w, a), id, m)
  {
    var n := Next(w, a);
    assert forall x :: x in n.pushing && Into(x, id, PartOf(m)) ==> x in w.pushing;
  }

  /** Work moves on, but none of it becomes due. */
  lemma NotDueOn(w: World, a: Action, id: nat, m: Loc)
    requires !Due(w, id, m) && ListsOk(w) && Enabled(w, a) && NoPush(w, Next(w, a), id)
    ensures !Due(Next(w, a), id, m)
  {
    hide Due, ListsOk;
    if !OnLists(a) {
      ListFrame(w, a);
      NotDueByFrame(w, Next(w, a), id, m);
    } else if a.PushCheck? {
      NotDuePush(w, a.id, a.loc, id, m);
    } else if a.BucketPut? {
      NotDueBucket(w, a.id, a.loc, id, m);
    } else {
      NotDueSeal(w, a, id, m);
    }
  }

  // ---------- one step ----------

  lemma StrayAppend(w: World, id: nat, m: Loc, c: Concept, l: Loc)
    requires Stray(w, id, m) && ListsOk(w) && Enabled(w, Append(id, c, l))
    ensures Stray(Next(w, Append(id, c, l)), id, m)
  {
    var n := Next(w, Append(id, c, l));
    NotDueOn(w, Append(id, c, l), id, m);
    hide Due;
    var f := n.inflight[id];
    forall k | 0 <= k < |f.writes| ensures WriteOk(n, id, f.writes[k]) {
      if k < |f.writes| - 1 { assert WriteOk(w, id, w.inflight[id].writes[k]); }
    }
    if id in w.inflight {
      var g := w.inflight[id];
      if g.stage.Took? && g.stage.loc != Some(m) {
        var k: nat :| AtWrite(g, k, g.stage.loc);
        assert AtWrite(f, k, f.stage.loc);
      }
      if id in n.t.slots && n.t.slots[id].loc.Some? && n.t.slots[id].loc != Some(m) {
        MoreLanding(w, n, id, n.disk[n.t.slots[id].loc.value]);
      }
    }
  }

  lemma MoreLanding(w: World, n: World, id: nat, c: Concept)
    requires id in w.inflight && id in n.inflight && w.inflight[id].writes <= n.inflight[id].writes
    requires w.inflight[id].announced <= n.inflight[id].announced <= |n.inflight[id].writes|
    ensures Landing(w, id, c) ==> Landing(n, id, c)
  {
    if Landing(w, id, c) {
      var k :| 0 <= k < w.inflight[id].announced <= |w.inflight[id].writes| && w.inflight[id].writes[k].c == c;
      assert n.inflight[id].writes[k].c == c;
    }
  }

  /** Announced on a slot in memory, the new location takes the place of `m`. */
  lemma StrayAnnounced(w: World, id: nat, m: Loc)
    requires Stray(w, id, m) && Enabled(w, Announce(id)) && Holds(w.t, id) && Orderly(w, Announce(id))
    ensures IdOk(Next(w, Announce(id)), id)
  {
    hide Due;
    var n := Next(w, Announce(id));
    var f, g := w.inflight[id], n.inflight[id];
    forall k | 0 <= k < |g.writes| ensures WriteOk(n, id, g.writes[k]) { assert WriteOk(w, id, f.writes[k]); }
    assert g.writes[f.announced].loc == Latest(g);
    assert Landing(n, id, g.writes[f.announced].c);
  }

  /** The flight moves on, the slot does not. */
  lemma StrayStaged(w: World, n: World, id: nat, m: Loc)
    requires Stray(w, id, m) && id in w.inflight && id in n.inflight && !Due(n, id, m)
    requires n.t.slots == w.t.slots && n.applied == w.applied && n.disk == w.disk && n.closed == w.closed && n.retired == w.retired
    requires n.t.attached == w.t.attached && n.inflight[id].writes == w.inflight[id].writes && WritesOk(w, id, w.inflight[id])
    requires w.inflight[id].announced <= n.inflight[id].announced <= |n.inflight[id].writes| && PastIt(n.inflight[id], m)
    requires n.inflight[id].stage.Idle? || n.inflight[id].announced > 0
    requires n.inflight[id].announced > 0 ==> StrayKept(n, id, n.inflight[id], m)
    requires (n.inflight[id].stashing ==> n.inflight[id].announced < |n.inflight[id].writes|) && StrayTook(n.inflight[id], m)
    requires id in n.t.pending ==> PendingOk(n, id)
    ensures Stray(n, id, m)
  {
    hide Due, StrayKept, StrayTook, PastIt, PendingOk;
    forall k | 0 <= k < |n.inflight[id].writes| ensures WriteOk(n, id, n.inflight[id].writes[k]) {
      assert WriteOk(w, id, w.inflight[id].writes[k]);
    }
    if id in w.t.slots && w.t.slots[id].loc.Some? { LandingStays(w, n, id, w.disk[w.t.slots[id].loc.value]); }
  }

  lemma StrayWaits(w: World, id: nat, m: Loc, a: Action)
    requires Stray(w, id, m) && ListsOk(w) && Enabled(w, a)
    requires (a == Announce(id) && !Holds(w.t, id)) || a == Stash(id) || a == ApplyRead(id) || a == ApplyTake(id)
    ensures Stray(Next(w, a), id, m)
  {
    var n := Next(w, a);
    NotDueOn(w, a, id, m);
    hide Due;
    var f, g := w.inflight[id], n.inflight[id];
    if g.stage.Took? && g.stage.loc != Some(m) {
      if a.ApplyTake? {
        assert AtWrite(g, g.announced - 1, g.stage.loc);
      } else {
        var k: nat :| AtWrite(f, k, f.stage.loc);
        assert AtWrite(g, k, g.stage.loc);
      }
    }
    StrayStaged(w, n, id, m);
  }

  // ---------- a write lands ----------

  /** What an apply leaves of the flight of `id`. */
  lemma LandedWrites(w: World, id: nat, m: Loc, l: Option<Loc>, taken: Option<Loc>)
    requires Stray(w, id, m) && Applicable(w, id)
    ensures var n := Landed(w, id, l, taken);
      id in n.inflight ==> WritesOk(n, id, n.inflight[id]) && PastIt(n.inflight[id], m)
  {
    hide Due;
    var n := Landed(w, id, l, taken);
    var f := w.inflight[id];
    assert WriteOk(w, id, f.writes[0]);
    if id in n.inflight {
      var g := n.inflight[id];
      forall k | 0 <= k < |g.writes| ensures WriteOk(n, id, g.writes[k]) && (k >= g.announced - 1 ==> g.writes[k].loc != m) {
        assert g.writes[k] == f.writes[k + 1];
        assert WriteOk(w, id, f.writes[k + 1]);
      }
    }
  }

  lemma LandedLoc(w: World, id: nat, l: Option<Loc>, j: nat, taken: Option<Loc>)
    requires Applicable(w, id) && WritesOk(w, id, w.inflight[id]) && AtWrite(w.inflight[id], j, l)
    ensures var n := Landed(w, id, l, taken); LocOk(n, id)
  {
    var n, f := Landed(w, id, l, taken), w.inflight[id];
    assert WriteOk(w, id, f.writes[0]) && WriteOk(w, id, f.writes[j]);
    if j > 0 {
      assert f.writes[1..][j - 1] == f.writes[j];
      assert n.inflight[id].writes[j - 1].c == w.disk[l.value];
    }
  }

  /** At the location of a write the slot is as it should be. */
  lemma LandsAtWrite(w: World, id: nat, m: Loc, l: Option<Loc>, j: nat, taken: Option<Loc>)
    requires Stray(w, id, m) && Applicable(w, id) && AtWrite(w.inflight[id], j, l) && l != Some(m)
    requires id !in w.t.pending ==> l == Some(Latest(w.inflight[id]))
    requires id in w.t.pending ==> w.inflight[id].announced > 1
    ensures IdOk(Landed(w, id, l, taken), id)
  {
    var n, f := Landed(w, id, l, taken), w.inflight[id];
    LandedWrites(w, id, m, l, taken);
    LandedLoc(w, id, l, j, taken);
    hide Due;
    assert WriteOk(w, id, f.writes[0]);
    if id in n.inflight && n.inflight[id].announced > 0 {
      assert n.inflight[id].writes[n.inflight[id].announced - 1] == f.writes[f.announced - 1];
    }
  }

  /** Without a taken location nothing is pushed, and `m` may come back. */
  lemma LandsQuietly(w: World, id: nat, m: Loc, l: Option<Loc>)
    requires Stray(w, id, m) && Applicable(w, id) && (l == Some(m) || exists k :: AtWrite(w.inflight[id], k, l))
    requires id !in w.t.pending ==> IsOr(l, w.inflight[id], m)
    requires id in w.t.pending ==> w.inflight[id].announced > 1
    requires !Due(Landed(w, id, l, None), id, m)
    ensures Stray(Landed(w, id, l, None), id, m)
  {
    var n, f := Landed(w, id, l, None), w.inflight[id];
    LandedWrites(w, id, m, l, None);
    hide Due;
    assert WriteOk(w, id, f.writes[0]);
    if l != Some(m) {
      var j: nat :| AtWrite(f, j, l);
      LandedLoc(w, id, l, j, None);
    }
    if id in n.inflight && n.inflight[id].announced > 0 {
      assert n.inflight[id].writes[n.inflight[id].announced - 1] == f.writes[f.announced - 1];
    }
  }

  lemma StrayInsert(w: World, id: nat, m: Loc)
    requires Stray(w, id, m) && ListsOk(w) && Enabled(w, ApplyInsert(id))
    ensures var n := Next(w, ApplyInsert(id)); IdOk(n, id) || Stray(n, id, m)
  {
    var f := w.inflight[id];
    if f.stage.taken.Some? {
      hide Due;
      var j: nat :| AtWrite(f, j, f.stage.loc);
      LandsAtWrite(w, id, m, f.stage.loc, j, f.stage.taken);
    } else {
      NotDueOn(w, ApplyInsert(id), id, m);
      hide Due;
      LandsQuietly(w, id, m, f.stage.loc);
    }
  }

  lemma StrayUpdate(w: World, id: nat, m: Loc)
    requires Stray(w, id, m) && ListsOk(w) && Enabled(w, Update(id))
    ensures var n := Next(w, Update(id)); IdOk(n, id) || Stray(n, id, m)
  {
    var f := w.inflight[id];
    var l := if id in w.t.pending then Some(w.t.pending[id]) else w.t.slots[id].loc;
    var w1 := w.(t := w.t.(pending := w.t.pending - {id}));
    if id in w.t.pending {
      hide Due;
      assert AtWrite(f, f.announced - 1, l);
      LandedWrites(w, id, m, l, l);
      TakenLands(w, id, m, l);
    } else {
      NotDueOn(w, Update(id), id, m);
      hide Due;
      assert w1 == w;
      assert l == Some(m) || AtWrite(f, f.announced - 1, l);
      LandsQuietly(w, id, m, l);
    }
  }

  lemma TakenLands(w: World, id: nat, m: Loc, l: Option<Loc>)
    requires Stray(w, id, m) && Enabled(w, Update(id)) && Pending(w, id) == l && l.Some?
    ensures IdOk(Next(w, Update(id)), id)
  {
    var w1 := w.(t := w.t.(pending := w.t.pending - {id}));
    var f := w.inflight[id];
    assert AtWrite(f, f.announced - 1, l);
    LandedWrites(w, id, m, l, l);
    LandedLoc(w1, id, l, f.announced - 1, l);
    hide Due;
    var n := Next(w, Update(id));
    assert n == Landed(w1, id, l, l);
    assert WriteOk(w, id, f.writes[0]);
    if id in n.inflight {
      var g := n.inflight[id];
      forall k | 0 <= k < |g.writes| ensures WriteOk(n, id, g.writes[k]) {
        assert g.writes[k] == f.writes[k + 1];
        assert WriteOk(w, id, f.writes[k + 1]);
      }
      if g.announced > 0 { assert g.writes[g.announced - 1] == f.writes[f.announced - 1]; }
    }
  }

  // ---------- a payload goes ----------

  lemma StrayEvicts(w: World, n: World, id: nat, m: Loc)
    requires Stray(w, id, m) && !Due(n, id, m) && id in w.t.slots && w.t.slots[id].loc.Some? && w.t.slots[id].loc != Some(m)
    requires ListsOk(w) && PartOf(w.t.slots[id].loc.value) in w.t.sealed && n == w.(t := n.t, evicting := n.evicting, sealing := n.sealing)
    requires n.t == Evict(w.t, id)
    ensures Stray(n, id, m)
  {
    hide Due;
    if id in w.inflight {
      forall k | 0 <= k < |w.inflight[id].writes| ensures WriteOk(n, id, n.inflight[id].writes[k]) {
        assert WriteOk(w, id, w.inflight[id].writes[k]);
      }
    }
  }

  lemma StrayDropped(w: World, id: nat, m: Loc, a: Action)
    requires Stray(w, id, m) && ListsOk(w) && Enabled(w, a) && ((a.EvictNow? && a.id == id) || (a.SealDrop? && a.id == id))
    ensures Stray(Next(w, a), id, m)
  {
    var n := Next(w, a);
    NotDueOn(w, a, id, m);
    if a.EvictNow? {
      assert (id, a.loc) in w.evicting && a.loc != m;
      assert PartOf((id, a.loc).1) in w.t.sealed;
    } else {
      assert (a.part, id) in w.sealing && a.part != PartOf(m);
      assert (a.part, id).0 in w.t.sealed;
    }
    hide Due;
    if n.t == w.t { StrayUntouched(w, n, id, m); } else { StrayEvicts(w, n, id, m); }
  }

  /** Rewritten by compaction, or removed, the concept is where it belongs. */
  lemma StraySettled(w: World, id: nat, m: Loc, a: Action)
    requires Stray(w, id, m) && ListsOk(w) && Enabled(w, a) && (a == Remove(id) || (a.Relocate? && a.id == id))
    ensures IdOk(Next(w, a), id)
  {
    hide Due;
  }

  // ---------- every step ----------

  predicate About(a: Action, id: nat) {
    match a
    case Append(i, _, _) => i == id
    case Announce(i) => i == id
    case Stash(i) => i == id
    case ApplyRead(i) => i == id
    case ApplyTake(i) => i == id
    case ApplyInsert(i) => i == id
    case Update(i) => i == id
    case EvictNow(i, _) => i == id
    case SealDrop(_, i) => i == id
    case Relocate(i, _) => i == id
    case Remove(i) => i == id
    case _ => false
  }

  lemma StrayAbout(w: World, id: nat, m: Loc, a: Action)
    requires Stray(w, id, m) && ListsOk(w) && Enabled(w, a) && Orderly(w, a) && About(a, id)
    ensures IdOk(Next(w, a), id) || Stray(Next(w, a), id, m)
  {
    match a
    case Append(_, c, l) => StrayAppend(w, id, m, c, l);
    case Announce(_) => if Holds(w.t, id) { StrayAnnounced(w, id, m); } else { StrayWaits(w, id, m, a); }
    case ApplyInsert(_) => StrayInsert(w, id, m);
    case Update(_) => StrayUpdate(w, id, m);
    case EvictNow(_, _) => StrayDropped(w, id, m, a);
    case SealDrop(_, _) => StrayDropped(w, id, m, a);
    case Relocate(_, _) => StraySettled(w, id, m, a);
    case Remove(_) => StraySettled(w, id, m, a);
    case _ => StrayWaits(w, id, m, a);
  }

  ghost predicate Frames(w: World, n: World, id: nat) { SameFor(w, n, id) && NoPush(w, n, id) && Grows(w, n) }

  lemma FlightAway(w: World, id: nat, a: Action)
    requires Enabled(w, a) && !About(a, id) && (a.Append? || a.Announce? || a.Stash? || a.ApplyRead? || a.ApplyTake?)
    ensures Frames(w, Next(w, a), id)
  {
  }

  lemma LandAway(w: World, id: nat, a: Action)
    requires Enabled(w, a) && !About(a, id) && (a.ApplyInsert? || a.Update?)
    ensures Frames(w, Next(w, a), id)
  {
  }

  lemma SlotAway(w: World, id: nat, a: Action)
    requires Enabled(w, a) && !About(a, id) && (a.EvictNow? || a.SealDrop? || a.Relocate? || a.Remove?)
    ensures Frames(w, Next(w, a), id)
  {
  }

  lemma WorkAway(w: World, id: nat, a: Action)
    requires Enabled(w, a) && (a.Close? || a.Attach? || a.PushCheck? || a.BucketPut? || a.SealMark? || a.SealTake?)
    ensures Frames(w, Next(w, a), id)
  {
  }

  lemma AwayFrame(w: World, id: nat, a: Action)
    requires Enabled(w, a) && !About(a, id) && !a.Retire?
    ensures Frames(w, Next(w, a), id)
  {
    hide Frames, Next, Enabled;
    if a.Append? || a.Announce? || a.Stash? || a.ApplyRead? || a.ApplyTake? {
      FlightAway(w, id, a);
    } else if a.ApplyInsert? || a.Update? {
      LandAway(w, id, a);
    } else if a.EvictNow? || a.SealDrop? || a.Relocate? || a.Remove? {
      SlotAway(w, id, a);
    } else {
      WorkAway(w, id, a);
    }
  }

  lemma StrayRetired(w: World, id: nat, m: Loc, p: Partition)
    requires Stray(w, id, m) && ListsOk(w) && Enabled(w, Retire(p))
    ensures Stray(Next(w, Retire(p)), id, m)
  {
    var n := Next(w, Retire(p));
    NotDueOn(w, Retire(p), id, m);
    hide Due;
    if id in w.inflight {
      forall k | 0 <= k < |w.inflight[id].writes| ensures WriteOk(n, id, n.inflight[id].writes[k]) {
        assert WriteOk(w, id, w.inflight[id].writes[k]);
      }
    }
    if id in w.t.slots { assert !LocatedIn(w.t, id, p); }
  }

  lemma StrayNotDue(w: World, id: nat, m: Loc)
    requires Stray(w, id, m)
    ensures !Due(w, id, m)
  {
  }

  lemma StrayAway(w: World, id: nat, m: Loc, a: Action)
    requires Stray(w, id, m) && ListsOk(w) && Enabled(w, a) && !About(a, id)
    ensures Stray(Next(w, a), id, m)
  {
    hide Due, Next, Enabled, ListsOk, Stray, About;
    if a.Retire? {
      StrayRetired(w, id, m, a.part);
    } else {
      AwayFrame(w, id, a);
      assert !Due(w, id, m) by { StrayNotDue(w, id, m); }
      NotDueOn(w, a, id, m);
      StrayUntouched(w, Next(w, a), id, m);
    }
  }

  // ---------- the other ids ----------

  /** Two worlds that differ in `id` and in work that waits. */
  ghost predicate SameOthers(w: World, n: World, id: nat) {
    && n.t.slots - {id} == w.t.slots - {id} && n.t.pending - {id} == w.t.pending - {id}
    && n.applied - {id} == w.applied - {id} && n.inflight - {id} == w.inflight - {id}
  }

  lemma FlightOthers(w: World, id: nat, a: Action)
    requires Enabled(w, a) && About(a, id) && (a.Append? || a.Announce? || a.Stash? || a.ApplyRead? || a.ApplyTake?)
    ensures SameOthers(w, Next(w, a), id) && Grows(w, Next(w, a)) && (ListsOk(w) ==> ListsOk(Next(w, a)))
  {
  }

  lemma LandOthers(w: World, id: nat, a: Action)
    requires Enabled(w, a) && About(a, id) && (a.ApplyInsert? || a.Update?)
    ensures SameOthers(w, Next(w, a), id) && Grows(w, Next(w, a)) && (ListsOk(w) ==> ListsOk(Next(w, a)))
  {
  }

  lemma SlotOthers(w: World, id: nat, a: Action)
    requires Enabled(w, a) && About(a, id) && (a.EvictNow? || a.SealDrop? || a.Relocate? || a.Remove?)
    ensures SameOthers(w, Next(w, a), id) && Grows(w, Next(w, a)) && (ListsOk(w) ==> ListsOk(Next(w, a)))
  {
  }

  /** Without `id`, an action about `id` moves only the work lists and the disk. */
  lemma OthersAbout(w: World, id: nat, a: Action)
    requires Inv(Others(w, id)) && Enabled(w, a) && About(a, id)
    ensures Inv(Others(Next(w, a), id))
  {
    if a.ApplyInsert? || a.Update? {
      LandOthers(w, id, a);
    } else if a.EvictNow? || a.SealDrop? || a.Relocate? || a.Remove? {
      SlotOthers(w, id, a);
    } else {
      FlightOthers(w, id, a);
    }
    hide IdOk, Next, Enabled;
    NoId(Others(w, id), Others(Next(w, a), id));
  }

  lemma EnabledAway(w: World, id: nat, a: Action)
    requires Enabled(w, a) && !About(a, id) && Orderly(w, a)
    ensures Enabled(Others(w, id), a) && Orderly(Others(w, id), a)
  {
  }

  lemma PutAway<V>(m: map<nat, V>, i: nat, v: V, id: nat)
    requires i != id
    ensures m[i := v] - {id} == (m - {id})[i := v]
  {
  }

  lemma TakeAway<V>(m: map<nat, V>, i: nat, id: nat)
    ensures m - {i} - {id} == m - {id} - {i}
  {
  }

  lemma FlyingAway(w: World, i: nat, f: Flight, id: nat)
    requires i != id
    ensures Flying(Others(w, id), i, f) == Others(Flying(w, i, f), id)
  {
    PutAway(w.inflight, i, f, id);
    TakeAway(w.inflight, i, id);
  }

  lemma FlightCommutes(w: World, id: nat, a: Action)
    requires Enabled(w, a) && Enabled(Others(w, id), a) && !About(a, id)
    requires a.Append? || a.Announce? || a.Stash? || a.ApplyRead? || a.ApplyTake?
    ensures Others(Next(w, a), id) == Next(Others(w, id), a)
  {
    if a.Append? {
      var f := if a.id in w.inflight then w.inflight[a.id] else Flight([], 0, false, Idle);
      FlyingAway(w, a.id, f.(writes := f.writes + [Write(a.c, a.loc)]), id);
    } else {
      FlyingAway(w, a.id, Next(w, a).inflight[a.id], id);
      TakeAway(w.t.pending, a.id, id);
      if a.Stash? { PutAway(w.t.pending, a.id, Next(w, a).t.pending[a.id], id); }
      if a.Announce? && Holds(w.t, a.id) { PutAway(w.t.slots, a.id, Next(w, a).t.slots[a.id], id); }
    }
  }

  lemma LandedCommutes(w: World, i: nat, l: Option<Loc>, taken: Option<Loc>, id: nat)
    requires Applicable(w, i) && Applicable(Others(w, id), i) && i != id
    ensures Others(Landed(w, i, l, taken), id) == Landed(Others(w, id), i, l, taken)
  {
    var f := w.inflight[i];
    FlyingAway(w, i, Flight(f.writes[1..], f.announced - 1, f.stashing, Idle), id);
    PutAway(w.t.slots, i, NewSlot(f.writes[0].c, l), id);
    PutAway(w.applied, i, f.writes[0].c, id);
  }

  lemma LandCommutes(w: World, id: nat, a: Action)
    requires Enabled(w, a) && Enabled(Others(w, id), a) && !About(a, id) && (a.ApplyInsert? || a.Update?)
    ensures Others(Next(w, a), id) == Next(Others(w, id), a)
  {
    hide Landed;
    if a.ApplyInsert? {
      LandedCommutes(w, a.id, w.inflight[a.id].stage.loc, w.inflight[a.id].stage.taken, id);
    } else {
      var w1 := w.(t := w.t.(pending := w.t.pending - {a.id}));
      TakeAway(w.t.pending, a.id, id);
      var taken := Pending(w, a.id);
      LandedCommutes(w1, a.id, if taken.Some? then taken else w.t.slots[a.id].loc, taken, id);
    }
  }

  lemma EvictCommutes(w: World, i: nat, id: nat)
    requires i != id && i in w.t.slots
    ensures Evict(w.t, i).slots - {id} == Evict(Others(w, id).t, i).slots
  {
    PutAway(w.t.slots, i, w.t.slots[i].(payload := None), id);
  }

  lemma EvictNowCommutes(w: World, i: nat, l: Loc, id: nat)
    requires i != id
    ensures Others(DoEvictNow(w, i, l), id) == DoEvictNow(Others(w, id), i, l)
  {
    hide Evict;
    if i in w.t.slots { EvictCommutes(w, i, id); EvictOnly(w.t, i); EvictOnly(Others(w, id).t, i); }
  }

  lemma EvictOnly(t: Tier, i: nat)
    requires i in t.slots
    ensures Evict(t, i) == t.(slots := Evict(t, i).slots)
  {
  }

  lemma SealDropCommutes(w: World, p: Partition, i: nat, id: nat)
    requires i != id
    ensures Others(DoSealDrop(w, p, i), id) == DoSealDrop(Others(w, id), p, i)
  {
    hide Evict;
    assert LocatedIn(w.t, i, p) <==> LocatedIn(Others(w, id).t, i, p);
    if i in w.t.slots { EvictCommutes(w, i, id); EvictOnly(w.t, i); EvictOnly(Others(w, id).t, i); }
  }

  lemma RelocateCommutes(w: World, i: nat, l: Loc, id: nat)
    requires i != id && Enabled(w, Relocate(i, l)) && Enabled(Others(w, id), Relocate(i, l))
    ensures Others(DoRelocate(w, i, l), id) == DoRelocate(Others(w, id), i, l)
  {
    var slot := w.t.slots[i].(loc := Some(l));
    PutAway(w.t.slots, i, slot, id);
    PutAway(w.t.slots[i := slot], i, slot.(payload := None), id);
  }

  lemma SlotCommutes(w: World, id: nat, a: Action)
    requires Enabled(w, a) && Enabled(Others(w, id), a) && !About(a, id) && (a.EvictNow? || a.SealDrop? || a.Relocate? || a.Remove?)
    ensures Others(Next(w, a), id) == Next(Others(w, id), a)
  {
    hide Others, DoEvictNow, DoSealDrop, DoRelocate;
    match a
    case EvictNow(i, l) => EvictNowCommutes(w, i, l, id);
    case SealDrop(p, i) => SealDropCommutes(w, p, i, id);
    case Relocate(i, l) => RelocateCommutes(w, i, l, id);
    case Remove(i) => RemoveCommutes(w, i, id);
  }

  lemma RemoveCommutes(w: World, i: nat, id: nat)
    ensures var n := w.(t := w.t.(slots := w.t.slots - {i}), applied := w.applied - {i});
      var v := Others(w, id);
      Others(n, id) == v.(t := v.t.(slots := v.t.slots - {i}), applied := v.applied - {i})
  {
    TakeAway(w.t.slots, i, id);
    TakeAway(w.applied, i, id);
  }

  lemma PushCommutes(w: World, i: nat, l: Loc, id: nat)
    ensures Others(DoPushCheck(w, i, l), id) == DoPushCheck(Others(w, id), i, l)
  {
  }

  lemma SealTakeCommutes(w: World, p: Partition, id: nat)
    ensures Others(DoSealTake(w, p), id) == DoSealTake(Others(w, id), p)
  {
  }

  lemma StoreCommutes(w: World, id: nat, a: Action)
    requires Enabled(w, a) && Enabled(Others(w, id), a) && (a.Close? || a.Attach? || a.Retire? || a.BucketPut? || a.SealMark?)
    ensures Others(Next(w, a), id) == Next(Others(w, id), a)
  {
    hide Enabled;
  }

  lemma WorkCommutes(w: World, id: nat, a: Action)
    requires Enabled(w, a) && Enabled(Others(w, id), a)
    requires a.Close? || a.Attach? || a.Retire? || a.PushCheck? || a.BucketPut? || a.SealMark? || a.SealTake?
    ensures Others(Next(w, a), id) == Next(Others(w, id), a)
  {
    hide Others, Enabled, DoPushCheck, DoSealTake;
    match a
    case PushCheck(i, l) => PushCommutes(w, i, l, id);
    case SealTake(p) => SealTakeCommutes(w, p, id);
    case _ => StoreCommutes(w, id, a);
  }

  lemma OthersAway(w: World, id: nat, a: Action)
    requires Enabled(w, a) && !About(a, id) && Orderly(w, a)
    ensures Enabled(Others(w, id), a) && Orderly(Others(w, id), a)
    ensures Others(Next(w, a), id) == Next(Others(w, id), a)
  {
    EnabledAway(w, id, a);
    hide Next, Enabled, Orderly, Others;
    if a.Append? || a.Announce? || a.Stash? || a.ApplyRead? || a.ApplyTake? {
      FlightCommutes(w, id, a);
    } else if a.ApplyInsert? || a.Update? {
      LandCommutes(w, id, a);
    } else if a.EvictNow? || a.SealDrop? || a.Relocate? || a.Remove? {
      SlotCommutes(w, id, a);
    } else {
      WorkCommutes(w, id, a);
    }
  }

  lemma StrayStep(w: World, id: nat, m: Loc, a: Action)
    requires Inv(Others(w, id)) && Stray(w, id, m) && Orderly(w, a)
    ensures var n := Next(w, a); Inv(n) || (Inv(Others(n, id)) && Stray(n, id, m))
  {
    hide Due, IdOk, Stray;
    if Enabled(w, a) {
      if About(a, id) {
        OthersAbout(w, id, a);
        StrayAbout(w, id, m, a);
        if IdOk(Next(w, a), id) { WholeInv(Next(w, a), id); }
      } else {
        OthersAway(w, id, a);
        StepInv(Others(w, id), a);
        StrayAway(w, id, m, a);
      }
    }
  }

  /** Astray or mended, no orderly run misleads a read. */
  lemma {:induction false} StrayRun(w: World, id: nat, m: Loc, more: seq<Action>)
    requires Inv(Others(w, id)) && Stray(w, id, m) && OrderlyRun(w, more)
    ensures var n := Run(w, more); Inv(n) || (Inv(Others(n, id)) && Stray(n, id, m))
  {
    if more != [] {
      var l := |more| - 1;
      StrayRun(w, id, m, more[..l]);
      var n := Run(w, more[..l]);
      if Inv(n) { StepInv(n, more[l]); } else { StrayStep(n, id, m, more[l]); }
    }
  }

  lemma NotMisled(w: World, id: nat, m: Loc, more: seq<Action>)
    requires Inv(Others(w, id)) && Stray(w, id, m) && OrderlyRun(w, more)
    ensures !Wrong(Run(w, more), id)
  {
    hide Due, Next;
    StrayRun(w, id, m, more);
    var n := Run(w, more);
    if Inv(n) { assert IdOk(n, id); } else { StrayIsFaithful(n, id, m); }
  }

  // ---------- the condition ----------

  /** No two writes in flight share a location. */
  ghost predicate Distinct(w: World) {
    forall id :: id in w.inflight ==>
      && (forall k :: 0 <= k < |w.inflight[id].writes| ==> w.inflight[id].writes[k].loc in w.disk)
      && (forall j, k :: 0 <= j < k < |w.inflight[id].writes| ==> w.inflight[id].writes[j].loc != w.inflight[id].writes[k].loc)
  }

  lemma WritesMove(w: World, a: Action, id: nat)
    requires id in Next(w, a).inflight
    ensures var n := Next(w, a);
      || (id in w.inflight && n.inflight[id].writes == w.inflight[id].writes)
      || (id in w.inflight && 0 < |w.inflight[id].writes| && n.inflight[id].writes == w.inflight[id].writes[1..])
      || (a.Append? && a.id == id && a.loc !in w.disk && a.loc in n.disk
          && n.inflight[id].writes == (if id in w.inflight then w.inflight[id].writes else []) + [Write(a.c, a.loc)])
  {
  }

  lemma DistinctStep(w: World, a: Action)
    requires Distinct(w)
    ensures Distinct(Next(w, a))
  {
    StepReads(w, a, Loc(0, 0, 0));
    var n := Next(w, a);
    assert forall l :: l in w.disk ==> l in n.disk;
    forall id | id in n.inflight
      ensures forall k :: 0 <= k < |n.inflight[id].writes| ==> n.inflight[id].writes[k].loc in n.disk
      ensures forall j, k :: 0 <= j < k < |n.inflight[id].writes| ==> n.inflight[id].writes[j].loc != n.inflight[id].writes[k].loc
    {
      WritesMove(w, a, id);
    }
  }

  lemma {:induction false} DistinctRun(actions: seq<Action>)
    ensures Distinct(Run(START, actions))
  {
    if actions != [] {
      DistinctRun(actions[..|actions| - 1]);
      DistinctStep(Run(START, actions[..|actions| - 1]), actions[|actions| - 1]);
    }
  }

  /** A disorderly announcement that is not exposed strays. */
  lemma Strays(w: World, id: nat)
    requires Inv(w) && Distinct(w) && Enabled(w, Announce(id)) && !Orderly(w, Announce(id)) && !Exposed(w, id) && NewVersion(w, id)
    ensures Applicable(w, id) && Stray(Next(w, Announce(id)), id, LastLoc(w, id))
  {
    DisorderCarries(w, id);
    assert IdOk(w, id);
    var n, m := Next(w, Announce(id)), LastLoc(w, id);
    var f, g := w.inflight[id], n.inflight[id];
    assert WriteOk(w, id, f.writes[f.announced]);
    assert NewLoc(w, id) != m;
    NotDueAnnounced(w, id);
    hide Due;
    forall k | 0 <= k < |g.writes| ensures WriteOk(n, id, g.writes[k]) { assert WriteOk(w, id, f.writes[k]); }
    assert Landing(n, id, g.writes[f.announced].c);
  }

  lemma NotDueAnnounced(w: World, id: nat)
    requires Enabled(w, Announce(id)) && Applicable(w, id) && Holds(w.t, id) && !Exposed(w, id) && NewLoc(w, id) != LastLoc(w, id)
    ensures !Due(Next(w, Announce(id)), id, LastLoc(w, id))
  {
    var n, m := Next(w, Announce(id)), LastLoc(w, id);
    var p := PartOf(m);
    forall x | x in n.pushing && Into(x, id, p) ensures p in n.t.sealed && x != (id, m) {
      if x != (id, NewLoc(w, id)) { assert x in w.pushing; }
    }
  }

  /** The announcement of a new version can mislead a read exactly when it is
      disorderly and exposed. */
  lemma ReadsAreExact(actions: seq<Action>, id: nat)
    requires OrderlyRun(START, actions) && Enabled(Run(START, actions), Announce(id)) && NewVersion(Run(START, actions), id)
    ensures var w := Run(START, actions);
      Misleads(Next(w, Announce(id)), id) <==> !Orderly(w, Announce(id)) && Exposed(w, id)
  {
    hide Exposed, Wrong, Due, Stray;
    var w := Run(START, actions);
    var n := Next(w, Announce(id));
    RunInv(actions);
    DistinctRun(actions);
    if Orderly(w, Announce(id)) {
      forall more | OrderlyRun(n, more) ensures !Wrong(Run(n, more), id) { OrderlyIsRight(w, id, more); }
    } else if Exposed(w, id) {
      var more := ExposedIsRead(w, id);
    } else {
      Strays(w, id);
      OthersInv(w, id);
      OthersAbout(w, id, Announce(id));
      forall more | OrderlyRun(n, more) ensures !Wrong(Run(n, more), id) { NotMisled(n, id, LastLoc(w, id), more); }
    }
  }

  lemma {:induction false} InvRun(w: World, more: seq<Action>)
    requires Inv(w) && OrderlyRun(w, more)
    ensures Inv(Run(w, more))
  {
    if more != [] {
      InvRun(w, more[..|more| - 1]);
      StepInv(Run(w, more[..|more| - 1]), more[|more| - 1]);
    }
  }

  lemma OrderlyIsRight(w: World, id: nat, more: seq<Action>)
    requires Inv(w) && Orderly(w, Announce(id)) && OrderlyRun(Next(w, Announce(id)), more)
    ensures !Wrong(Run(Next(w, Announce(id)), more), id)
  {
    hide Next;
    StepInv(w, Announce(id));
    InvRun(Next(w, Announce(id)), more);
    assert IdOk(Run(Next(w, Announce(id)), more), id);
  }

  // ---------- such an announcement is reachable ----------

  function Version(text: string): Concept { Concept(1, "T", "a", text, map[]) }

  const L1 := Loc(1, 1, 0)
  const L2 := Loc(1, 2, 0)
  const L3 := Loc(1, 3, 0)
  const W2 := Write(Version("2"), L2)
  const W3 := Write(Version("3"), L3)

  /** Concept 1 in version 1, held at `loc`. */
  function Held(text: string, loc: Loc): map<nat, Slot> { map[1 := NewSlot(Version(text), Some(loc))] }

  /** The states of the run, two actions apart. */
  const S1 := START.(t := START.t.(attached := true), disk := map[L1 := Version("1")],
                     inflight := map[1 := Flight([Write(Version("1"), L1)], 0, false, Idle)])
  const S2 := S1.(t := S1.t.(pending := map[1 := L1]),
                  inflight := map[1 := Flight([Write(Version("1"), L1)], 1, false, Read(None))])
  const S3 := S1.(t := S1.t.(slots := Held("1", L1)), applied := map[1 := Version("1")], inflight := map[], pushing := {(1, L1)})
  const S4 := S3.(t := S3.t.(slots := Held("1", L2)), disk := map[L1 := Version("1"), L2 := Version("2")],
                  inflight := map[1 := Flight([W2], 1, false, Idle)], pushing := {(1, L1), (1, L2)})
  const S5 := S4.(t := S4.t.(sealable := map[(1, 2) := [1]]), pushing := {(1, L1)})
  const S6 := S5.(disk := map[L1 := Version("1"), L2 := Version("2"), L3 := Version("3")],
                  inflight := map[1 := Flight([W2, W3], 1, false, Read(Some(L2)))])
  lemma RunA()
    ensures Run(START, [Attach, Append(1, Version("1"), L1)]) == S1
  {
    RunTwo(START, Attach, Append(1, Version("1"), L1));
    assert [] + [Write(Version("1"), L1)] == [Write(Version("1"), L1)];
  }

  lemma RunB()
    ensures Run(S1, [Announce(1), Stash(1)] + [ApplyRead(1)]) == S2
  {
    RunTwo(S1, Announce(1), Stash(1));
    RunAppend(S1, [Announce(1), Stash(1)], [ApplyRead(1)]);
    RunOne(Next(Next(S1, Announce(1)), Stash(1)), ApplyRead(1));
  }

  lemma RunC()
    ensures Run(S2, [ApplyTake(1), ApplyInsert(1)]) == S3
  {
    RunTwo(S2, ApplyTake(1), ApplyInsert(1));
    assert [Write(Version("1"), L1)][1..] == [];
  }

  lemma RunD()
    ensures Run(S3, [Append(1, Version("2"), L2), Announce(1)]) == S4
  {
    RunTwo(S3, Append(1, Version("2"), L2), Announce(1));
    assert [] + [W2] == [W2];
  }

  lemma RunE()
    ensures Run(S4, [PushCheck(1, L2), BucketPut(1, L2)]) == S5
  {
    RunTwo(S4, PushCheck(1, L2), BucketPut(1, L2));
    assert S4.pushing - {(1, L2)} == {(1, L1)};
    var m := DoPushCheck(S4, 1, L2);
    assert m == S4.(pushing := {(1, L1)}, bucketing := {(1, L2)});
    assert m.bucketing - {(1, L2)} == {};
    assert [] + [1] == [1];
    assert Bucketed(m.t, 1, (1, 2)).sealable == map[(1, 2) := [1]];
  }

  lemma RunF()
    ensures Run(S5, [ApplyRead(1), Append(1, Version("3"), L3)]) == S6
  {
    RunTwo(S5, ApplyRead(1), Append(1, Version("3"), L3));
    assert [W2] + [W3] == [W2, W3];
  }

  const PREFIX := [Attach, Append(1, Version("1"), L1)] + ([Announce(1), Stash(1)] + [ApplyRead(1)]) + [ApplyTake(1), ApplyInsert(1)]
    + [Append(1, Version("2"), L2), Announce(1)] + [PushCheck(1, L2), BucketPut(1, L2)] + [ApplyRead(1), Append(1, Version("3"), L3)]

  lemma PrefixRuns()
    ensures Run(START, PREFIX) == S6
  {
    RunA(); RunB(); RunC(); RunD(); RunE(); RunF();
    var a := [Attach, Append(1, Version("1"), L1)];
    var b := a + ([Announce(1), Stash(1)] + [ApplyRead(1)]);
    var c := b + [ApplyTake(1), ApplyInsert(1)];
    var d := c + [Append(1, Version("2"), L2), Announce(1)];
    var e := d + [PushCheck(1, L2), BucketPut(1, L2)];
    RunAppend(START, a, [Announce(1), Stash(1)] + [ApplyRead(1)]);
    RunAppend(START, b, [ApplyTake(1), ApplyInsert(1)]);
    RunAppend(START, c, [Append(1, Version("2"), L2), Announce(1)]);
    RunAppend(START, d, [PushCheck(1, L2), BucketPut(1, L2)]);
    RunAppend(START, e, [ApplyRead(1), Append(1, Version("3"), L3)]);
  }

  lemma SegmentB()
    ensures OrderlyRun(S1, [Announce(1), Stash(1)] + [ApplyRead(1)])
  {
    assert [Announce(1), Stash(1)] + [ApplyRead(1)] == [Announce(1)] + [Stash(1), ApplyRead(1)];
    FirstOrderly(S1, Announce(1), [Stash(1), ApplyRead(1)]);
  }

  lemma SegmentD()
    ensures OrderlyRun(S3, [Append(1, Version("2"), L2), Announce(1)])
  {
    var n := Next(S3, Append(1, Version("2"), L2));
    assert n.inflight[1] == Flight([] + [W2], 0, false, Idle);
    FirstOrderly(n, Announce(1), []);
    assert [Announce(1)] + [] == [Announce(1)];
    RunOne(S3, Append(1, Version("2"), L2));
    OrderlyAppend(S3, [Append(1, Version("2"), L2)], [Announce(1)]);
    assert [Append(1, Version("2"), L2)] + [Announce(1)] == [Append(1, Version("2"), L2), Announce(1)];
  }

  /** Each announcement of the prefix finds the id quiet. */
  lemma PrefixIsOrderly()
    ensures OrderlyRun(START, PREFIX)
  {
    hide Run, OrderlyRun, Orderly, Next;
    RunA(); RunB(); RunC(); RunD(); RunE();
    SegmentB();
    SegmentD();
    var a := [Attach, Append(1, Version("1"), L1)];
    var b := a + ([Announce(1), Stash(1)] + [ApplyRead(1)]);
    var c := b + [ApplyTake(1), ApplyInsert(1)];
    var d := c + [Append(1, Version("2"), L2), Announce(1)];
    var e := d + [PushCheck(1, L2), BucketPut(1, L2)];
    QuietIsOrderly(START, a);
    QuietIsOrderly(S2, [ApplyTake(1), ApplyInsert(1)]);
    QuietIsOrderly(S4, [PushCheck(1, L2), BucketPut(1, L2)]);
    QuietIsOrderly(S5, [ApplyRead(1), Append(1, Version("3"), L3)]);
    Chain(a, S1, [Announce(1), Stash(1)] + [ApplyRead(1)]);
    Chain(b, S2, [ApplyTake(1), ApplyInsert(1)]);
    Chain(c, S3, [Append(1, Version("2"), L2), Announce(1)]);
    Chain(d, S4, [PushCheck(1, L2), BucketPut(1, L2)]);
    Chain(e, S5, [ApplyRead(1), Append(1, Version("3"), L3)]);
  }

  lemma Chain(a: seq<Action>, w: World, b: seq<Action>)
    requires OrderlyRun(START, a) && Run(START, a) == w && OrderlyRun(w, b)
    ensures OrderlyRun(START, a + b) && Run(START, a + b) == Run(w, b)
  {
    OrderlyAppend(START, a, b);
    RunAppend(START, a, b);
  }

  lemma FirstOrderly(w: World, a: Action, rest: seq<Action>)
    requires Orderly(w, a) && NoAnnouncement(rest)
    ensures OrderlyRun(w, [a] + rest)
  {
    RunOne(w, a);
    OrderlyAppend(w, [a], rest);
    QuietIsOrderly(Next(w, a), rest);
  }

  /** With the third write announced while the second is being applied, its
      location is lost: with both applied, a read answers the second version
      once the partition of the second seals. */
  lemma DisorderReadsAStaleVersion() returns (more: seq<Action>)
    ensures OrderlyRun(START, PREFIX) && !Orderly(Run(START, PREFIX), Announce(1))
    ensures OrderlyRun(Next(Run(START, PREFIX), Announce(1)), more)
    ensures Wrong(Run(Next(Run(START, PREFIX), Announce(1)), more), 1)
  {
    PrefixRuns();
    PrefixIsOrderly();
    RunInv(PREFIX);
    assert S6.inflight[1].writes[1].c.description == "3" && S6.inflight[1].writes[0].c.description == "2";
    assert 1 in S6.t.sealable[(1, 2)];
    more := ExposedIsRead(S6, 1);
  }

  // ---------- compaction inside a read ----------

  const L9 := Loc(1, 9, 0)
  const E1 := S3.(t := S3.t.(slots := map[1 := NewSlot(Version("1"), Some(L1)).(payload := None)], sealed := {(1, 1)}), closed := {(1, 1)}, pushing := {})
  const EVICT_ONE := [Close((1, 1)), SealMark((1, 1))] + [PushCheck(1, L1), EvictNow(1, L1)]
  const MOVE_ONE := [Close((1, 9)), Relocate(1, L9)] + [Retire((1, 1))]

  lemma EvictsOne()
    ensures Run(S3, EVICT_ONE) == E1
  {
    RunTwo(S3, Close((1, 1)), SealMark((1, 1)));
    var v := Next(Next(S3, Close((1, 1))), SealMark((1, 1)));
    assert v == S3.(t := S3.t.(sealed := {(1, 1)}), closed := {(1, 1)});
    RunAppend(S3, [Close((1, 1)), SealMark((1, 1))], [PushCheck(1, L1), EvictNow(1, L1)]);
    RunTwo(v, PushCheck(1, L1), EvictNow(1, L1));
    var u := Next(v, PushCheck(1, L1));
    assert u.pushing == {} && u.evicting == {(1, L1)} && u == v.(pushing := {}, evicting := {(1, L1)});
    assert Next(u, EvictNow(1, L1)).evicting == {};
  }

  lemma MovesOne()
    ensures (1, 1) in Run(E1, MOVE_ONE).retired
  {
    RunTwo(E1, Close((1, 9)), Relocate(1, L9));
    var v := Next(Next(E1, Close((1, 9))), Relocate(1, L9));
    assert v.t.slots[1].loc == Some(L9) && v.t.slots.Keys == {1} && v.inflight == map[];
    RunAppend(E1, [Close((1, 9)), Relocate(1, L9)], [Retire((1, 1))]);
    RunOne(v, Retire((1, 1)));
    assert Enabled(v, Retire((1, 1)));
  }

  const FIRST := [Attach, Append(1, Version("1"), L1)] + ([Announce(1), Stash(1)] + [ApplyRead(1)]) + [ApplyTake(1), ApplyInsert(1)]

  lemma FirstRuns()
    ensures OrderlyRun(START, FIRST) && Run(START, FIRST) == S3
  {
    RunA(); RunB(); RunC();
    SegmentB();
    QuietIsOrderly(START, [Attach, Append(1, Version("1"), L1)]);
    QuietIsOrderly(S2, [ApplyTake(1), ApplyInsert(1)]);
    Chain([Attach, Append(1, Version("1"), L1)], S1, [Announce(1), Stash(1)] + [ApplyRead(1)]);
    Chain([Attach, Append(1, Version("1"), L1)] + ([Announce(1), Stash(1)] + [ApplyRead(1)]), S2, [ApplyTake(1), ApplyInsert(1)]);
  }

  /** A read that took the location of an evicted slot finds nothing there once
      compaction has moved the record and deleted the partition, although the
      concept is live and readable before and after. */
  lemma CompactionInsideARead()
    ensures OrderlyRun(START, FIRST + EVICT_ONE)
    ensures var w := Run(START, FIRST + EVICT_ONE);
      GetConcept(w, 1) == Found(Version("1")) && GetAcross(w, Run(w, MOVE_ONE), 1) == Unavailable
  {
    hide OrderlyRun, Orderly, Run, Next;
    FirstRuns();
    EvictsOne();
    QuietIsOrderly(S3, EVICT_ONE);
    Chain(FIRST, S3, EVICT_ONE);
    MovesOne();
    ReadAcross(FIRST + EVICT_ONE, MOVE_ONE, 1);
  }
}
