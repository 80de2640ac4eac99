/** The slots of one graph: the methods of its payload tier
    (crates/graph/src/graph.rs) as runs of the protocol. */
module PayloadSlots {
  import opened Collections
  import opened GraphState
  import opened PayloadTier
  import opened PayloadRuns

  /** The two halves of `sealable_push`. */
  function PushActions(w: World, id: nat, l: Loc): seq<Action> {
    [PushCheck(id, l), if PartOf(l) in w.t.sealed && w.t.attached then EvictNow(id, l) else BucketPut(id, l)]
  }

  function SealDrops(p: Partition, ids: seq<nat>): seq<Action> {
    seq(|ids|, i requires 0 <= i < |ids| => SealDrop(p, ids[i]))
  }

  lemma PushRun(w: World, id: nat, l: Loc)
    requires (id, l) in w.pushing
    ensures Run(w, PushActions(w, id, l)).t ==
      if PartOf(l) in w.t.sealed && w.t.attached
      then (if id in w.t.slots && w.t.slots[id].loc == Some(l) then Evict(w.t, id) else w.t)
      else Bucketed(w.t, id, PartOf(l))
  {
    RunTwo(w, PushActions(w, id, l)[0], PushActions(w, id, l)[1]);
  }

  /** The slots of one graph. Each method, run undisturbed from any world that
      agrees with the slots, is a run of the interleaved protocol. */
  class Slots {
    var t: Tier

    constructor ()
      ensures t == START.t
    {
      t := Tier(map[], map[], {}, map[], false);
    }

    method SetPayloadSource()
      modifies this
      ensures t == old(t).(attached := true)
    {
      t := t.(attached := true);
    }

    method SealablePush(id: nat, l: Loc)
      modifies this
      ensures forall w: World :: w.t == old(t) && (id, l) in w.pushing ==> t == Run(w, PushActions(w, id, l)).t
    {
      forall w: World | w.t == t && (id, l) in w.pushing { PushRun(w, id, l); }
      if PartOf(l) in t.sealed && t.attached {
        if id in t.slots && t.slots[id].loc == Some(l) { t := Evict(t, id); }
      } else {
        t := Bucketed(t, id, PartOf(l));
      }
    }

    /** `set_loc` for a record of the active segment. */
    method SetLocResident(id: nat, l: Loc, ghost w: World) returns (ghost done: seq<Action>)
      requires w.t == t && Enabled(w, Announce(id)) && w.inflight[id].writes[w.inflight[id].announced].loc == l
      modifies this
      ensures t == Run(w, done).t && done != [] && done[0] == Announce(id)
    {
      ghost var v := Next(w, Announce(id));
      if id !in t.slots || t.slots[id].payload.None? {
        RunTwo(w, Announce(id), Stash(id));
        t := t.(pending := t.pending[id := l]);
        return [Announce(id), Stash(id)];
      }
      RunOne(w, Announce(id));
      t := Located(t, id, l);
      assert v.t == t && (id, l) in v.pushing;
      RunAppend(w, [Announce(id)], PushActions(v, id, l));
      SealablePush(id, l);
      done := [Announce(id)] + PushActions(v, id, l);
    }

    /** The payload side of `apply_prepared_concept`. */
    method Apply(c: Concept, ghost w: World) returns (ghost done: seq<Action>)
      requires w.t == t && Applicable(w, c.id) && w.inflight[c.id].stage.Idle? && w.inflight[c.id].writes[0].c == c
      modifies this
      ensures t == Run(w, done).t && [ApplyRead(c.id), ApplyTake(c.id), ApplyInsert(c.id)] <= done
    {
      var id := c.id;
      var prev := if id in t.slots then t.slots[id].loc else None;
      var taken := if id in t.pending then Some(t.pending[id]) else None;
      ApplySteps(w, id);
      done := [ApplyRead(id), ApplyTake(id), ApplyInsert(id)];
      t := t.(pending := t.pending - {id}, slots := t.slots[id := NewSlot(c, if taken.Some? then taken else prev)]);
      if taken.Some? {
        ghost var v := Run(w, done);
        RunAppend(w, done, PushActions(v, id, taken.value));
        SealablePush(id, taken.value);
        done := done + PushActions(v, id, taken.value);
      }
    }

    /** `set_loc` for a record that compaction moved to a sealed segment. */
    method SetLocSealed(id: nat, l: Loc, ghost w: World) returns (ghost done: seq<Action>)
      requires w.t == t && Enabled(w, Relocate(id, l))
      modifies this
      ensures t == Run(w, done).t && done != [] && done[0] == Relocate(id, l)
    {
      ghost var v := Next(w, Relocate(id, l));
      RunOne(w, Relocate(id, l));
      done := [Relocate(id, l)];
      t := Located(t, id, l);
      if t.attached {
        t := Evict(t, id);
      } else {
        assert v.t == t && (id, l) in v.pushing;
        RunAppend(w, [Relocate(id, l)], PushActions(v, id, l));
        SealablePush(id, l);
        done := [Relocate(id, l)] + PushActions(v, id, l);
      }
    }

    /** `partition_sealed`; nothing happens until a source is attached. */
    method PartitionSealed(p: Partition, ghost w: World) returns (dropped: nat, ghost done: seq<Action>)
      requires w.t == t && p in w.closed
      modifies this
      ensures t == Run(w, done).t
      ensures dropped == |ResidentIds(old(t))| - |ResidentIds(t)|
    {
      done := [];
      if !t.attached { return 0, done; }
      hide Run, Next;
      var ids := if p in t.sealable then t.sealable[p] else [];
      t := t.(sealed := t.sealed + {p}, sealable := t.sealable - {p});
      SealStarts(w, p);
      RunAppend(w, [SealMark(p), SealTake(p)], SealDrops(p, ids));
      dropped := DropBucket(p, ids, Run(w, [SealMark(p), SealTake(p)]));
      done := [SealMark(p), SealTake(p)] + SealDrops(p, ids);
    }

    method DropBucket(p: Partition, ids: seq<nat>, ghost v: World) returns (dropped: nat)
      requires v.t == t && DropsLeft(v, p, ids)
      modifies this
      ensures t == Run(v, SealDrops(p, ids)).t
      ensures dropped == |ResidentIds(old(t))| - |ResidentIds(t)|
    {
      dropped := 0;
      ghost var start := t;
      assert SealDrops(p, ids[..0]) == [];
      for i := 0 to |ids|
        invariant t == Run(v, SealDrops(p, ids[..i])).t
        invariant DropsLeft(Run(v, SealDrops(p, ids[..i])), p, ids[i..])
        invariant dropped == |ResidentIds(start)| - |ResidentIds(t)|
      {
        var id := ids[i];
        assert ids[i..][0] == id && ids[i..][1..] == ids[i + 1..];
        DropStep(v, p, ids, i);
        DropEffect(Run(v, SealDrops(p, ids[..i])), p, ids[i..]);
        if LocatedResident(t, id, p) {
          assert ResidentIds(Evict(t, id)) == ResidentIds(t) - {id};
          t := Evict(t, id);
          dropped := dropped + 1;
        }
      }
      assert ids[..|ids|] == ids;
    }

    /** `get_concept`, the source being the sealed part of `disk`. */
    method Get(id: nat, disk: map<Loc, Concept>, closed: set<Partition>) returns (r: Fetched)
      ensures forall w: World :: w.t == t && w.disk == disk && w.closed == closed ==> r == GetConcept(w, id)
    {
      if id !in t.slots { return Unknown; }
      var s := t.slots[id];
      if s.payload.Some? { return Found(Concept(id, s.ctype, s.name, s.payload.value.description, s.payload.value.properties)); }
      if s.loc.None? || !t.attached || s.loc.value !in disk || PartOf(s.loc.value) !in closed { return Unavailable; }
      var c := disk[s.loc.value];
      return if c.id != id then Unavailable else Found(c);
    }
  }

  function ResidentIds(t: Tier): set<nat> { set id | id in t.slots && t.slots[id].payload.Some? }

  predicate LocatedResident(t: Tier, id: nat, p: Partition) { LocatedIn(t, id, p) && t.slots[id].payload.Some? }

  lemma ApplySteps(w: World, id: nat)
    requires Applicable(w, id) && w.inflight[id].stage.Idle?
    ensures var n := Run(w, [ApplyRead(id), ApplyTake(id), ApplyInsert(id)]);
      var prev := if id in w.t.slots then w.t.slots[id].loc else None;
      && n.t == w.t.(pending := w.t.pending - {id},
           slots := w.t.slots[id := NewSlot(w.inflight[id].writes[0].c, if Pending(w, id).Some? then Pending(w, id) else prev)])
      && (Pending(w, id).Some? ==> (id, Pending(w, id).value) in n.pushing)
  {
    RunThree(w, ApplyRead(id), ApplyTake(id), ApplyInsert(id));
    hide Run;
    ReadTake(w, id);
  }

  lemma ReadTake(w: World, id: nat)
    requires Applicable(w, id) && w.inflight[id].stage.Idle?
    ensures var n := Next(Next(w, ApplyRead(id)), ApplyTake(id));
      var prev := if id in w.t.slots then w.t.slots[id].loc else None;
      && n.t == w.t.(pending := w.t.pending - {id}) && n.pushing == w.pushing && Enabled(n, ApplyInsert(id))
      && n.inflight[id].writes == w.inflight[id].writes
      && n.inflight[id].stage == Took(if Pending(w, id).Some? then Pending(w, id) else prev, Pending(w, id))
  {
  }

  lemma RunThree(w: World, a: Action, b: Action, c: Action)
    ensures Run(w, [a, b, c]) == Next(Next(Next(w, a), b), c)
  {
    hide Next;
    assert [a, b, c] == [a, b] + [c];
    RunAppend(w, [a, b], [c]);
    RunTwo(w, a, b);
    RunOne(Run(w, [a, b]), c);
  }

  lemma SealStarts(w: World, p: Partition)
    requires p in w.closed && w.t.attached
    ensures var n := Run(w, [SealMark(p), SealTake(p)]); var ids := if p in w.t.sealable then w.t.sealable[p] else [];
      n.t == w.t.(sealed := w.t.sealed + {p}, sealable := w.t.sealable - {p}) && DropsLeft(n, p, ids)
  {
    RunTwo(w, SealMark(p), SealTake(p));
  }

  lemma DropStep(v: World, p: Partition, ids: seq<nat>, i: nat)
    requires i < |ids|
    ensures Run(v, SealDrops(p, ids[..i + 1])) == Next(Run(v, SealDrops(p, ids[..i])), SealDrop(p, ids[i]))
  {
    assert SealDrops(p, ids[..i + 1]) == SealDrops(p, ids[..i]) + [SealDrop(p, ids[i])];
    RunAppend(v, SealDrops(p, ids[..i]), [SealDrop(p, ids[i])]);
    RunOne(Run(v, SealDrops(p, ids[..i])), SealDrop(p, ids[i]));
  }

  /** Every remaining id of the bucket is still to be dropped, or holds nothing
      that this partition could drop. */
  ghost predicate DropsLeft(w: World, p: Partition, ids: seq<nat>) {
    forall id :: id in ids ==> (p, id) in w.sealing || !LocatedResident(w.t, id, p)
  }

  lemma DropEffect(v: World, p: Partition, ids: seq<nat>)
    requires ids != [] && DropsLeft(v, p, ids)
    ensures Next(v, SealDrop(p, ids[0])).t == if LocatedResident(v.t, ids[0], p) then Evict(v.t, ids[0]) else v.t
    ensures DropsLeft(Next(v, SealDrop(p, ids[0])), p, ids[1..])
  {
    var id := ids[0];
    assert id in ids;
    if LocatedIn(v.t, id, p) && !LocatedResident(v.t, id, p) {
      assert v.t.slots[id].(payload := None) == v.t.slots[id];
      assert Evict(v.t, id).slots == v.t.slots;
    }
    forall i | i in ids[1..] ensures (p, i) in Next(v, SealDrop(p, id)).sealing || !LocatedResident(Next(v, SealDrop(p, id)).t, i, p) {
      assert i in ids;
    }
  }
}
