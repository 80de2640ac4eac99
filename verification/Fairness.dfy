/** The order in which an expansion admits edges (crates/graph/src/traversal.rs):
    strongest first within each relation type, and the types take turns, so
    that a crowded type cannot use up the cap. */
module Fairness {

  /** An edge waiting for admission; `ty` numbers its relation type. */
  datatype Candidate = Candidate(weight: int, node: nat, rid: nat, neighbor: nat, ty: nat)

  // ---------- strongest first ----------

  ghost predicate Descending(s: seq<Candidate>) {
    forall i, j :: 0 <= i < j < |s| ==> s[i].weight >= s[j].weight
  }

  /** Insert behind every candidate that is at least as strong. */
  function Insert(s: seq<Candidate>, c: Candidate): seq<Candidate> {
    if s == [] then [c] else
    var l := |s| - 1;
    if s[l].weight >= c.weight then s + [c] else Insert(s[..l], c) + [s[l]]
  }

  /** `sort_by` on the weight, descending and stable. */
  function Strongest(s: seq<Candidate>): seq<Candidate> {
    if s == [] then [] else Insert(Strongest(s[..|s| - 1]), s[|s| - 1])
  }

  lemma {:induction false} InsertKeeps(s: seq<Candidate>, c: Candidate)
    ensures multiset(Insert(s, c)) == multiset(s) + multiset{c}
  {
    if s != [] {
      var l := |s| - 1;
      assert s == s[..l] + [s[l]];
      if s[l].weight < c.weight { InsertKeeps(s[..l], c); }
    }
  }

  lemma {:induction false} InsertOk(s: seq<Candidate>, c: Candidate)
    requires Descending(s)
    ensures Descending(Insert(s, c)) && multiset(Insert(s, c)) == multiset(s) + multiset{c}
  {
    hide Descending;
    InsertKeeps(s, c);
    if s != [] {
      DescendingEnd(s);
    }
    if s != [] && s[|s| - 1].weight < c.weight {
      var l := |s| - 1;
      InsertOk(s[..l], c);
      InsertAbove(s[..l], c, s[l]);
      DescendingSnoc(Insert(s[..l], c), s[l]);
    } else {
      DescendingSnoc(s, c);
      assert s == [] ==> s + [c] == [c];
    }
  }

  lemma DescendingEnd(s: seq<Candidate>)
    requires Descending(s) && s != []
    ensures Descending(s[..|s| - 1]) && forall i :: 0 <= i < |s| ==> s[i].weight >= s[|s| - 1].weight
  {
  }

  lemma DescendingSnoc(s: seq<Candidate>, low: Candidate)
    requires Descending(s) && forall i :: 0 <= i < |s| ==> s[i].weight >= low.weight
    ensures Descending(s + [low])
  {
  }

  /** What all of a list and `c` outweigh, the list with `c` inserted outweighs. */
  lemma InsertAbove(s: seq<Candidate>, c: Candidate, low: Candidate)
    requires c.weight >= low.weight && forall i :: 0 <= i < |s| ==> s[i].weight >= low.weight
    ensures forall i :: 0 <= i < |Insert(s, c)| ==> Insert(s, c)[i].weight >= low.weight
  {
    InsertKeeps(s, c);
    forall i | 0 <= i < |Insert(s, c)| ensures Insert(s, c)[i].weight >= low.weight {
      assert Insert(s, c)[i] in multiset(s) + multiset{c};
    }
  }

  /** A permutation, strongest first. */
  lemma {:induction false} StrongestOk(s: seq<Candidate>)
    ensures Descending(Strongest(s)) && multiset(Strongest(s)) == multiset(s)
  {
    hide Insert;
    if s != [] {
      var l := |s| - 1;
      StrongestOk(s[..l]);
      InsertOk(Strongest(s[..l]), s[l]);
      assert s == s[..l] + [s[l]];
    }
  }

  function OfWeight(s: seq<Candidate>, w: int): seq<Candidate> {
    if s == [] then [] else
    var l := |s| - 1;
    if s[l].weight == w then OfWeight(s[..l], w) + [s[l]] else OfWeight(s[..l], w)
  }

  lemma OfWeightSnoc(s: seq<Candidate>, c: Candidate, w: int)
    ensures OfWeight(s + [c], w) == if c.weight == w then OfWeight(s, w) + [c] else OfWeight(s, w)
  {
    assert (s + [c])[..|s|] == s;
  }

  lemma {:induction false} InsertStable(s: seq<Candidate>, c: Candidate, w: int)
    requires Descending(s)
    ensures OfWeight(Insert(s, c), w) == OfWeight(s + [c], w)
  {
    OfWeightSnoc(s, c, w);
    if s != [] {
      var l := |s| - 1;
      if s[l].weight < c.weight {
        InsertStable(s[..l], c, w);
        OfWeightSnoc(s[..l], c, w);
        OfWeightSnoc(Insert(s[..l], c), s[l], w);
      }
    }
  }

  /** Equal weights keep adjacency order. */
  lemma {:induction false} StrongestStable(s: seq<Candidate>, w: int)
    ensures OfWeight(Strongest(s), w) == OfWeight(s, w)
  {
    if s != [] {
      var l := |s| - 1;
      StrongestOk(s[..l]);
      StrongestStable(s[..l], w);
      InsertStable(Strongest(s[..l]), s[l], w);
      OfWeightSnoc(Strongest(s[..l]), s[l], w);
      OfWeightSnoc(s[..l], s[l], w);
      assert s == s[..l] + [s[l]];
    }
  }

  // ---------- buckets ----------

  function OfKind(s: seq<Candidate>, t: nat): seq<Candidate> {
    if s == [] then [] else
    var l := |s| - 1;
    if s[l].ty == t then OfKind(s[..l], t) + [s[l]] else OfKind(s[..l], t)
  }

  lemma {:induction false} OfKindDescending(s: seq<Candidate>, t: nat)
    requires Descending(s)
    ensures Descending(OfKind(s, t)) && forall c :: c in OfKind(s, t) <==> c in s && c.ty == t
  {
    if s != [] {
      var l := |s| - 1;
      OfKindDescending(s[..l], t);
      assert s == s[..l] + [s[l]];
      forall c | c in OfKind(s[..l], t) ensures c.weight >= s[l].weight {
        var k :| 0 <= k < l && s[..l][k] == c;
        assert s[k] == c;
      }
    }
  }

  ghost predicate AreBuckets(buckets: seq<seq<Candidate>>, s: seq<Candidate>) {
    forall t :: 0 <= t < |buckets| ==> buckets[t] == OfKind(s, t)
  }

  method Distribute(s: seq<Candidate>, types: nat) returns (buckets: seq<seq<Candidate>>)
    requires forall c :: c in s ==> c.ty < types
    ensures |buckets| == types && AreBuckets(buckets, s)
  {
    buckets := seq(types, _ => []);
    for i := 0 to |s|
      invariant |buckets| == types && AreBuckets(buckets, s[..i])
    {
      assert s[i] in s;
      assert s[..i + 1][..i] == s[..i];
      buckets := buckets[s[i].ty := buckets[s[i].ty] + [s[i]]];
    }
    assert s[..|s|] == s;
  }

  // ---------- taking turns ----------

  /** The `k`-th of every bucket that has one, in bucket order. */
  function Round(buckets: seq<seq<Candidate>>, k: nat): seq<Candidate> {
    if buckets == [] then [] else
    var l := |buckets| - 1;
    if k < |buckets[l]| then Round(buckets[..l], k) + [buckets[l][k]] else Round(buckets[..l], k)
  }

  function Rounds(buckets: seq<seq<Candidate>>, k: nat): seq<Candidate> {
    if k == 0 then [] else Rounds(buckets, k - 1) + Round(buckets, k - 1)
  }

  function Cut(n: nat, k: nat): nat { if n <= k then n else k }

  /** The first `k` of every bucket, together. */
  function Firsts(buckets: seq<seq<Candidate>>, k: nat): multiset<Candidate> {
    if buckets == [] then multiset{} else
    var l := |buckets| - 1;
    Firsts(buckets[..l], k) + multiset(buckets[l][..Cut(|buckets[l]|, k)])
  }

  function Longest(buckets: seq<seq<Candidate>>): nat {
    if buckets == [] then 0 else
    var rest := Longest(buckets[..|buckets| - 1]);
    if |buckets[|buckets| - 1]| > rest then |buckets[|buckets| - 1]| else rest
  }

  lemma OneMore(bucket: seq<Candidate>, k: nat)
    ensures multiset(bucket[..Cut(|bucket|, k + 1)]) ==
      multiset(bucket[..Cut(|bucket|, k)]) + (if k < |bucket| then multiset{bucket[k]} else multiset{})
  {
    if k < |bucket| { assert bucket[..k + 1] == bucket[..k] + [bucket[k]]; }
  }

  lemma {:induction false} RoundTakes(buckets: seq<seq<Candidate>>, k: nat)
    ensures multiset(Round(buckets, k)) + Firsts(buckets, k) == Firsts(buckets, k + 1)
  {
    hide Cut;
    if buckets != [] {
      var l := |buckets| - 1;
      RoundTakes(buckets[..l], k);
      OneMore(buckets[l], k);
      RoundSnoc(buckets, k);
    }
  }

  lemma RoundSnoc(buckets: seq<seq<Candidate>>, k: nat)
    requires buckets != []
    ensures var l := |buckets| - 1;
      multiset(Round(buckets, k)) == multiset(Round(buckets[..l], k)) + (if k < |buckets[l]| then multiset{buckets[l][k]} else multiset{})
  {
  }

  lemma {:induction false} NothingYet(buckets: seq<seq<Candidate>>)
    ensures Firsts(buckets, 0) == multiset{}
  {
    if buckets != [] { NothingYet(buckets[..|buckets| - 1]); }
  }

  lemma {:induction false} RoundsTake(buckets: seq<seq<Candidate>>, k: nat)
    ensures multiset(Rounds(buckets, k)) == Firsts(buckets, k)
  {
    hide Round, Firsts;
    if k == 0 {
      NothingYet(buckets);
    } else {
      RoundsTake(buckets, k - 1);
      RoundTakes(buckets, k - 1);
      Together(Rounds(buckets, k - 1), Round(buckets, k - 1));
    }
  }

  lemma Together(a: seq<Candidate>, b: seq<Candidate>)
    ensures multiset(a + b) == multiset(a) + multiset(b)
  {
  }

  lemma {:induction false} AllTaken(buckets: seq<seq<Candidate>>, k: nat)
    requires Longest(buckets) <= k
    ensures Firsts(buckets, k) == Firsts(buckets, Longest(buckets))
    ensures forall t :: 0 <= t < |buckets| ==> |buckets[t]| <= Longest(buckets)
    ensures Round(buckets, k) == []
  {
    if buckets != [] {
      var l := |buckets| - 1;
      AllTaken(buckets[..l], k);
      AllTaken(buckets[..l], Longest(buckets));
      forall t | 0 <= t < |buckets| ensures |buckets[t]| <= Longest(buckets) {
        if t < l { assert buckets[..l][t] == buckets[t]; }
      }
    }
  }

  /** Candidates come by rank within their type: no type gets its next one in
      before every other type has had as many. */
  lemma {:induction false} RanksAscend(buckets: seq<seq<Candidate>>, k: nat, i: nat, j: nat)
    requires i < j < |Rounds(buckets, k)|
    ensures RankAt(buckets, k, i) <= RankAt(buckets, k, j) < k
  {
    var n := |Rounds(buckets, k - 1)|;
    if j < n { RanksAscend(buckets, k - 1, i, j); } else if i < n { RankBound(buckets, k - 1, i); }
  }

  /** The round that position `i` was taken in. */
  function RankAt(buckets: seq<seq<Candidate>>, k: nat, i: nat): nat
    requires i < |Rounds(buckets, k)|
    decreases k
  {
    if i < |Rounds(buckets, k - 1)| then RankAt(buckets, k - 1, i) else k - 1
  }

  lemma {:induction false} RankBound(buckets: seq<seq<Candidate>>, k: nat, i: nat)
    requires i < |Rounds(buckets, k)|
    ensures RankAt(buckets, k, i) < k
  {
    if i < |Rounds(buckets, k - 1)| { RankBound(buckets, k - 1, i); }
  }

  lemma {:induction false} DistributeAll(s: seq<Candidate>, buckets: seq<seq<Candidate>>)
    requires AreBuckets(buckets, s) && forall c :: c in s ==> c.ty < |buckets|
    ensures Firsts(buckets, Longest(buckets)) == multiset(s)
  {
    AllTaken(buckets, Longest(buckets));
    forall c: Candidate ensures Firsts(buckets, Longest(buckets))[c] == multiset(s)[c] { CountFirsts(s, buckets, Longest(buckets), c); }
  }

  /** A candidate occurs in its own bucket only, as often as in the list. */
  lemma {:induction false} CountFirsts(s: seq<Candidate>, buckets: seq<seq<Candidate>>, k: nat, c: Candidate)
    requires AreBuckets(buckets, s) && forall t :: 0 <= t < |buckets| ==> |buckets[t]| <= k
    ensures Firsts(buckets, k)[c] == if c.ty < |buckets| then multiset(s)[c] else 0
  {
    if buckets != [] {
      var l := |buckets| - 1;
      CountFirsts(s, buckets[..l], k, c);
      CountOfKind(s, l, c);
      assert buckets[l][..Cut(|buckets[l]|, k)] == buckets[l];
    }
  }

  lemma {:induction false} CountOfKind(s: seq<Candidate>, t: nat, c: Candidate)
    ensures multiset(OfKind(s, t))[c] == if c.ty == t then multiset(s)[c] else 0
  {
    if s != [] {
      var l := |s| - 1;
      CountOfKind(s[..l], t, c);
      assert s == s[..l] + [s[l]];
    }
  }

  /** One pass of the inner loop over the buckets and their cursors. */
  method TakeTurn(buckets: seq<seq<Candidate>>, cursors: seq<nat>, ghost k: nat, before: seq<Candidate>)
    returns (after: seq<nat>, out: seq<Candidate>)
    requires |cursors| == |buckets| && forall t :: 0 <= t < |buckets| ==> cursors[t] == Cut(|buckets[t]|, k)
    ensures |after| == |buckets| && forall t :: 0 <= t < |buckets| ==> after[t] == Cut(|buckets[t]|, k + 1)
    ensures out == before + Round(buckets, k)
  {
    after, out := cursors, before;
    for t := 0 to |buckets|
      invariant |after| == |buckets| && out == before + Round(buckets[..t], k)
      invariant forall u :: 0 <= u < t ==> after[u] == Cut(|buckets[u]|, k + 1)
      invariant forall u :: t <= u < |buckets| ==> after[u] == Cut(|buckets[u]|, k)
    {
      assert buckets[..t + 1][..t] == buckets[..t];
      if after[t] < |buckets[t]| {
        out := out + [buckets[t][after[t]]];
        after := after[t := after[t] + 1];
      }
    }
    assert buckets[..|buckets|] == buckets;
  }

  /** The whole reordering: a permutation of the candidates, the types taking
      turns, each offering its strongest first. */
  method Reorder(edges: seq<Candidate>, types: nat) returns (out: seq<Candidate>, ghost buckets: seq<seq<Candidate>>)
    requires forall c :: c in edges ==> c.ty < types
    ensures multiset(out) == multiset(edges)
    ensures |buckets| == types && AreBuckets(buckets, Strongest(edges)) && out == Rounds(buckets, Longest(buckets))
    ensures forall t :: 0 <= t < types ==> Descending(buckets[t])
  {
    var sorted := Strongest(edges);
    StrongestOk(edges);
    forall c | c in sorted ensures c.ty < types { assert c in multiset(sorted); }
    var byType := Distribute(sorted, types);
    buckets := byType;
    forall t | 0 <= t < types ensures Descending(byType[t]) { OfKindDescending(sorted, t); }
    DistributeAll(sorted, byType);
    RoundsTake(byType, Longest(byType));
    SameSize(Rounds(byType, Longest(byType)), sorted);
    out := TakeTurns(byType, |sorted|, Longest(byType));
  }

  /** Turns until everything is out. */
  method TakeTurns(buckets: seq<seq<Candidate>>, total: nat, ghost n: nat) returns (out: seq<Candidate>)
    requires |Rounds(buckets, n)| == total
    ensures out == Rounds(buckets, n)
  {
    out := [];
    var cursors: seq<nat> := seq(|buckets|, _ => 0);
    ghost var k := 0;
    while |out| < total
      invariant out == Rounds(buckets, k) && k <= n
      invariant |cursors| == |buckets| && forall t :: 0 <= t < |buckets| ==> cursors[t] == Cut(|buckets[t]|, k)
      decreases n - k
    {
      cursors, out := TakeTurn(buckets, cursors, k, out);
      k := k + 1;
    }
    RoundsGrow(buckets, k, n);
  }

  lemma SameSize(a: seq<Candidate>, b: seq<Candidate>)
    requires multiset(a) == multiset(b)
    ensures |a| == |b|
  {
    assert |multiset(a)| == |a| && |multiset(b)| == |b|;
  }

  lemma {:induction false} RoundsGrow(buckets: seq<seq<Candidate>>, k: nat, n: nat)
    requires k <= n
    ensures Rounds(buckets, k) <= Rounds(buckets, n)
    decreases n
  {
    if k < n { RoundsGrow(buckets, k, n - 1); }
  }
}
