/** Which announcements lose a location (crates/graph/src/graph.rs). The writer
    lock excludes all of them; without it, exactly the announcements outside
    `Orderly` can leave a slot at the record of another version. */
module PayloadRuns {
  import opened Collections
  import opened GraphState
  import opened PayloadTier

  // ---------- runs ----------

  lemma {:induction false} RunAppend(w: World, a: seq<Action>, b: seq<Action>)
    ensures Run(w, a + b) == Run(Run(w, a), b)
  {
    if b == [] {
      assert a + b == a;
    } else {
      var l := |b| - 1;
      assert (a + b)[..|a| + l] == a + b[..l];
      RunAppend(w, a, b[..l]);
    }
  }

  lemma {:induction false} OrderlyAppend(w: World, a: seq<Action>, b: seq<Action>)
    ensures OrderlyRun(w, a + b) <==> OrderlyRun(w, a) && OrderlyRun(Run(w, a), b)
  {
    if b == [] {
      assert a + b == a;
    } else {
      var l := |b| - 1;
      assert (a + b)[..|a| + l] == a + b[..l];
      OrderlyAppend(w, a, b[..l]);
      RunAppend(w, a, b[..l]);
    }
  }

  lemma RunOne(w: World, a: Action)
    ensures Run(w, [a]) == Next(w, a) && (OrderlyRun(w, [a]) <==> Orderly(w, a))
  {
    assert [a][..0] == [];
    assert Run(w, []) == w;
  }

  lemma RunTwo(w: World, a: Action, b: Action)
    ensures Run(w, [a, b]) == Next(Next(w, a), b)
  {
    assert [a, b][..1] == [a] && [a][..0] == [];
    assert Run(w, [a]) == Next(Run(w, []), a);
  }

  lemma RunFirst(w: World, a: Action, rest: seq<Action>)
    ensures Run(w, [a] + rest) == Run(Next(w, a), rest)
  {
    RunOne(w, a);
    RunAppend(w, [a], rest);
  }

  predicate NoAnnouncement(actions: seq<Action>) { forall i :: 0 <= i < |actions| ==> !actions[i].Announce? }

  lemma {:induction false} QuietIsOrderly(w: World, actions: seq<Action>)
    requires NoAnnouncement(actions)
    ensures OrderlyRun(w, actions)
  {
    if actions != [] { QuietIsOrderly(w, actions[..|actions| - 1]); }
  }

  // ---------- one writer at a time ----------

  predicate OneWriterRun(w: World, actions: seq<Action>) {
    actions == [] ||
    (var l := |actions| - 1;
     OneWriterRun(w, actions[..l]) && OneWriter(Run(w, actions[..l]), actions[l]))
  }

  /** Under the writer lock every run is orderly. */
  lemma {:induction false} OneWriterIsOrderly(actions: seq<Action>)
    requires OneWriterRun(START, actions)
    ensures OrderlyRun(START, actions)
  {
    if actions != [] {
      var l := |actions| - 1;
      OneWriterIsOrderly(actions[..l]);
      RunInv(actions[..l]);
      if actions[l].Announce? { assert IdOk(Run(START, actions[..l]), actions[l].id); }
    }
  }

  /** So under the writer lock evicted and resident are indistinguishable to a
      read, whatever happens inside it, but for a partition deleted under it. */
  lemma EvictionInvisibleToOneWriter(actions: seq<Action>, between: seq<Action>, id: nat)
    requires OneWriterRun(START, actions)
    ensures var w := Run(START, actions); var n := Run(w, between);
      && Faithful(w, id, GetConcept(w, id))
      && (id !in w.inflight ==> GetConcept(w, id) == GetResident(w, id))
      && GetAcross(w, n, id) == if DeletedUnder(w, n, id) then Unavailable else GetConcept(w, id)
  {
    OneWriterIsOrderly(actions);
    EvictionInvisible(actions, id);
    ReadAcross(actions, between, id);
  }

  // ---------- what the applies will write ----------

  /** The slot is located at the record of a version that is neither applied nor
      landing. */
  ghost predicate Misplaced(w: World, id: nat) {
    && id in w.t.slots && id in w.applied && w.t.slots[id].loc.Some? && w.t.slots[id].loc.value in w.disk
    && w.disk[w.t.slots[id].loc.value] != w.applied[id] && !Landing(w, id, w.disk[w.t.slots[id].loc.value])
  }

  /** If nothing more is announced, the applies of `id` leave its slot at `m`. */
  predicate Carries(w: World, id: nat, m: Loc) {
    Applicable(w, id) &&
    match w.inflight[id].stage
    case Idle => Pending(w, id) == Some(m) || (id !in w.t.pending && id in w.t.slots && w.t.slots[id].loc == Some(m))
    case Read(prev) => Pending(w, id) == Some(m) || (id !in w.t.pending && prev == Some(m))
    case Took(l, _) => (Pending(w, id) == Some(m) && w.inflight[id].announced > 1) || (id !in w.t.pending && l == Some(m))
  }

  function Advance(w: World, id: nat): Action
    requires Applicable(w, id)
  {
    match w.inflight[id].stage
    case Idle => ApplyRead(id)
    case Read(_) => ApplyTake(id)
    case Took(_, _) => ApplyInsert(id)
  }

  function Left(w: World, id: nat): nat
    requires Applicable(w, id)
  {
    3 * w.inflight[id].announced - (match w.inflight[id].stage case Idle => 0 case Read(_) => 1 case Took(_, _) => 2)
  }

  /** Every announced write of `id` is applied; the slot is resident at `m`. */
  predicate LandedAt(w: World, id: nat, m: Loc, c: Concept) {
    && (id in w.inflight ==> w.inflight[id].announced == 0)
    && id in w.applied && w.applied[id] == c && id in w.t.slots && w.t.slots[id].loc == Some(m)
  }

  predicate Into(x: (nat, Loc), id: nat, p: Partition) { x.0 == id && PartOf(x.1) == p }

  /** Work that waits will evict `id` if its slot is at `m` then: a push or an
      eviction of `m` itself, or a push into the partition of `m` that reaches
      the bucket before the seal, is in the bucket, or was taken out of it. */
  ghost predicate Due(w: World, id: nat, m: Loc) {
    var p := PartOf(m);
    || (id, m) in w.pushing || (id, m) in w.evicting
    || (p !in w.t.sealed && exists x :: x in w.pushing && Into(x, id, p))
    || (exists x :: x in w.bucketing && Into(x, id, p))
    || (p in w.t.sealable && id in w.t.sealable[p]) || (p, id) in w.sealing
  }

  predicate Stashed(w: World, id: nat, m: Loc) {
    Pending(w, id) == Some(m) || (Applicable(w, id) && w.inflight[id].stage.Took? && w.inflight[id].stage.taken == Some(m))
  }

  /** An apply leaves the store, the seals and what is due as they are. */
  predicate ApplyFrame(w: World, n: World) {
    && n.disk == w.disk && n.closed == w.closed && n.retired == w.retired
    && n.t.sealed == w.t.sealed && n.t.sealable == w.t.sealable && n.t.attached == w.t.attached && w.pushing <= n.pushing
    && n.evicting == w.evicting && n.bucketing == w.bucketing && n.sealing == w.sealing
  }

  lemma StillDue(w: World, n: World, id: nat, m: Loc)
    requires ApplyFrame(w, n) && Due(w, id, m)
    ensures Due(n, id, m)
  {
  }

  lemma AdvanceCarries(w: World, id: nat, m: Loc)
    requires Carries(w, id, m)
    ensures var n := Next(w, Advance(w, id)); var f := w.inflight[id];
      && ApplyFrame(w, n)
      && (Stashed(w, id, m) ==> (Carries(n, id, m) && Stashed(n, id, m)) || Due(n, id, m))
      && (Carries(n, id, m) || LandedAt(n, id, m, f.writes[f.announced - 1].c))
      && (Carries(n, id, m) ==> Left(n, id) < Left(w, id) && LastAnnounced(n, id) == LastAnnounced(w, id))
  {
  }

  function LastAnnounced(w: World, id: nat): Concept
    requires Applicable(w, id)
  {
    w.inflight[id].writes[w.inflight[id].announced - 1].c
  }

  /** The applies run to their end. */
  lemma {:induction false} AppliesEnd(w: World, id: nat, m: Loc) returns (more: seq<Action>)
    requires Carries(w, id, m)
    ensures NoAnnouncement(more) && LandedAt(Run(w, more), id, m, LastAnnounced(w, id)) && ApplyFrame(w, Run(w, more))
    ensures Stashed(w, id, m) || Due(w, id, m) ==> Due(Run(w, more), id, m)
    decreases Left(w, id)
  {
    var a := Advance(w, id);
    var n := Next(w, a);
    AdvanceCarries(w, id, m);
    if Due(w, id, m) { StillDue(w, n, id, m); }
    if Carries(n, id, m) {
      var rest := AppliesEnd(n, id, m);
      more := [a] + rest;
      RunFirst(w, a, rest);
    } else {
      more := [a];
      RunOne(w, a);
    }
  }

  // ---------- disorderly announcements ----------

  /** The version being announced differs from the last one announced. */
  predicate NewVersion(w: World, id: nat)
    requires Enabled(w, Announce(id))
  {
    var f := w.inflight[id];
    0 < f.announced ==> f.writes[f.announced].c != f.writes[f.announced - 1].c
  }

  function LastLoc(w: World, id: nat): Loc
    requires Applicable(w, id)
  {
    w.inflight[id].writes[w.inflight[id].announced - 1].loc
  }

  lemma DisorderCarries(w: World, id: nat)
    requires Inv(w) && Enabled(w, Announce(id)) && !Orderly(w, Announce(id))
    ensures Applicable(w, id) && Carries(Next(w, Announce(id)), id, LastLoc(w, id))
    ensures LastLoc(w, id) in w.disk && w.disk[LastLoc(w, id)] == LastAnnounced(w, id) && w.disk[LastLoc(w, id)].id == id
    ensures PartOf(LastLoc(w, id)) !in w.retired
    ensures LastAnnounced(Next(w, Announce(id)), id) == w.inflight[id].writes[w.inflight[id].announced].c
  {
    assert IdOk(w, id);
    assert WriteOk(w, id, w.inflight[id].writes[w.inflight[id].announced - 1]);
  }

  /** A disorderly announcement of a new version has an orderly continuation in
      which nothing announced is left to apply and the slot is at the record of
      the version before. */
  lemma DisorderMisplaces(w: World, id: nat) returns (more: seq<Action>)
    requires Inv(w) && Enabled(w, Announce(id)) && !Orderly(w, Announce(id)) && NewVersion(w, id)
    ensures NoAnnouncement(more) && OrderlyRun(Next(w, Announce(id)), more)
    ensures Applicable(w, id) && Misplaced(Run(Next(w, Announce(id)), more), id)
    ensures LandedAt(Run(Next(w, Announce(id)), more), id, LastLoc(w, id), w.inflight[id].writes[w.inflight[id].announced].c)
    ensures ApplyFrame(Next(w, Announce(id)), Run(Next(w, Announce(id)), more))
    ensures var m, n := LastLoc(w, id), Next(w, Announce(id)); Stashed(n, id, m) || Due(n, id, m) ==> Due(Run(n, more), id, m)
  {
    var n := Next(w, Announce(id));
    DisorderCarries(w, id);
    var m := LastLoc(w, id);
    more := AppliesEnd(n, id, m);
    QuietIsOrderly(n, more);
    assert IdOk(w, id);
    var e := Run(n, more);
    assert !Landing(e, id, e.disk[m]);
  }

  ghost predicate NeverWrong(w: World, id: nat) { forall more :: OrderlyRun(w, more) ==> !Misplaced(Run(w, more), id) }

  /** An announcement of a new version is orderly exactly when no orderly
      continuation misplaces the slot. */
  lemma OrderlyIsExact(actions: seq<Action>, id: nat)
    requires OrderlyRun(START, actions) && Enabled(Run(START, actions), Announce(id)) && NewVersion(Run(START, actions), id)
    ensures var w := Run(START, actions); var n := Next(w, Announce(id));
      Orderly(w, Announce(id)) <==> NeverWrong(n, id)
  {
    var w := Run(START, actions);
    var n := Next(w, Announce(id));
    RunInv(actions);
    if Orderly(w, Announce(id)) {
      forall more | OrderlyRun(n, more) ensures !Misplaced(Run(n, more), id) { NeverMisplaced(actions, id, more); }
    } else {
      var more := DisorderMisplaces(w, id);
      assert OrderlyRun(n, more) && Misplaced(Run(n, more), id);
    }
  }

  lemma NeverMisplaced(actions: seq<Action>, id: nat, more: seq<Action>)
    requires OrderlyRun(START, actions) && Orderly(Run(START, actions), Announce(id))
    requires OrderlyRun(Next(Run(START, actions), Announce(id)), more)
    ensures !Misplaced(Run(Next(Run(START, actions), Announce(id)), more), id)
  {
    var w := Run(START, actions);
    RunOne(w, Announce(id));
    OrderlyAppend(START, actions, [Announce(id)]);
    RunAppend(START, actions, [Announce(id)]);
    OrderlyAppend(START, actions + [Announce(id)], more);
    RunAppend(START, actions + [Announce(id)], more);
    RunInv(actions + [Announce(id)] + more);
    assert IdOk(Run(START, actions + [Announce(id)] + more), id);
  }
}
