/** Keeping the best-scored entries (crates/index/src/embed.rs), and why the
    heads kept by the threads of a split scan suffice. Scores are reals, which
    leaves rounding and NaN out. */
module TopK {
  import opened Collections

  type Hit = (nat, real)

  function Scores(hits: seq<Hit>): seq<real> { seq(|hits|, i requires 0 <= i < |hits| => hits[i].1) }

  predicate Falling(s: seq<real>) { forall i, j :: 0 <= i < j < |s| ==> s[i] >= s[j] }

  function Put(s: seq<real>, x: real): seq<real> {
    if s == [] then [x] else
    var l := |s| - 1;
    if s[l] >= x then s + [x] else Put(s[..l], x) + [s[l]]
  }

  /** The scores in descending order. */
  function Ranked(s: seq<real>): seq<real> {
    if s == [] then [] else Put(Ranked(s[..|s| - 1]), s[|s| - 1])
  }

  function Take<T>(s: seq<T>, n: nat): seq<T> { if |s| <= n then s else s[..n] }

  /** The `n` best scores, best first. */
  function Best(s: seq<real>, n: nat): seq<real> { Take(Ranked(s), n) }

  lemma {:induction false} PutKeeps(s: seq<real>, x: real)
    ensures multiset(Put(s, x)) == multiset(s) + multiset{x} && |Put(s, x)| == |s| + 1
  {
    if s != [] {
      var l := |s| - 1;
      assert s == s[..l] + [s[l]];
      if s[l] < x { PutKeeps(s[..l], x); }
    }
  }

  lemma {:induction false} PutOk(s: seq<real>, x: real)
    requires Falling(s)
    ensures Falling(Put(s, x)) && multiset(Put(s, x)) == multiset(s) + multiset{x} && |Put(s, x)| == |s| + 1
  {
    hide Falling;
    PutKeeps(s, x);
    if s != [] {
      FallingEnd(s);
    }
    if s != [] && s[|s| - 1] < x {
      var l := |s| - 1;
      PutOk(s[..l], x);
      PutAbove(s[..l], x, s[l]);
      FallingSnoc(Put(s[..l], x), s[l]);
    } else {
      FallingSnoc(s, x);
      assert s == [] ==> s + [x] == [x];
    }
  }

  lemma FallingEnd(s: seq<real>)
    requires Falling(s) && s != []
    ensures Falling(s[..|s| - 1]) && forall i :: 0 <= i < |s| ==> s[i] >= s[|s| - 1]
  {
  }

  lemma FallingSnoc(s: seq<real>, low: real)
    requires Falling(s) && forall i :: 0 <= i < |s| ==> s[i] >= low
    ensures Falling(s + [low])
  {
  }

  /** What all of a list and `x` exceed, the list with `x` put in exceeds. */
  lemma PutAbove(s: seq<real>, x: real, low: real)
    requires x >= low && forall i :: 0 <= i < |s| ==> s[i] >= low
    ensures forall i :: 0 <= i < |Put(s, x)| ==> Put(s, x)[i] >= low
  {
    PutKeeps(s, x);
    forall i | 0 <= i < |Put(s, x)| ensures Put(s, x)[i] >= low {
      assert Put(s, x)[i] in multiset(s) + multiset{x};
    }
  }

  lemma {:induction false} RankedOk(s: seq<real>)
    ensures Falling(Ranked(s)) && multiset(Ranked(s)) == multiset(s) && |Ranked(s)| == |s|
  {
    if s != [] {
      var l := |s| - 1;
      RankedOk(s[..l]);
      PutOk(Ranked(s[..l]), s[l]);
      assert s == s[..l] + [s[l]];
    }
  }

  lemma TailContents<T>(s: seq<T>)
    requires s != []
    ensures multiset(s[1..]) == multiset(s) - multiset{s[0]}
  {
    assert s == [s[0]] + s[1..];
  }

  lemma SameMaximum(a: seq<real>, b: seq<real>)
    requires Falling(a) && Falling(b) && multiset(a) == multiset(b) && a != []
    ensures b != [] && a[0] == b[0]
  {
    assert a[0] in multiset(b);
    assert b[0] in multiset(a);
  }

  /** A descending sequence is determined by what it contains. */
  lemma {:induction false} FallingUnique(a: seq<real>, b: seq<real>)
    requires Falling(a) && Falling(b) && multiset(a) == multiset(b)
    ensures a == b
  {
    if a == [] {
      SameLength(a, b);
    } else {
      SameMaximum(a, b);
      TailContents(a);
      TailContents(b);
      FallingUnique(a[1..], b[1..]);
      assert a == [a[0]] + a[1..] && b == [b[0]] + b[1..];
    }
  }

  lemma SameLength<T>(a: seq<T>, b: seq<T>)
    requires multiset(a) == multiset(b)
    ensures |a| == |b|
  {
    assert |multiset(a)| == |a| && |multiset(b)| == |b|;
  }

  lemma RankedByContents(a: seq<real>, b: seq<real>)
    requires multiset(a) == multiset(b)
    ensures Ranked(a) == Ranked(b)
  {
    RankedOk(a);
    RankedOk(b);
    FallingUnique(Ranked(a), Ranked(b));
  }

  lemma RankedFixed(s: seq<real>)
    requires Falling(s)
    ensures Ranked(s) == s
  {
    RankedOk(s);
    FallingUnique(Ranked(s), s);
  }

  // ---------- heads suffice ----------

  lemma {:induction false} PutLength(s: seq<real>, x: real)
    ensures |Put(s, x)| == |s| + 1
  {
    if s != [] { PutLength(s[..|s| - 1], x); }
  }

  lemma TakeSnoc(s: seq<real>, x: real, n: nat)
    requires n <= |s|
    ensures Take(s + [x], n) == Take(s, n)
  {
  }

  /** A score pushed past the `n`-th place can no longer matter. */
  lemma {:induction false} TakePut(s: seq<real>, x: real, n: nat)
    requires Falling(s)
    ensures Take(Put(Take(s, n), x), n) == Take(Put(s, x), n)
    decreases |s|
  {
    if |s| <= n {
      assert Take(s, n) == s;
    } else {
      var l := |s| - 1;
      if s[l] >= x {
        PutPrefix(s, x, n);
        TakeSnoc(s, x, n);
      } else {
        TakePut(s[..l], x, n);
        assert Take(s[..l], n) == Take(s, n) by { assert s[..l][..n] == s[..n]; }
        PutLength(s[..l], x);
        TakeSnoc(Put(s[..l], x), s[l], n);
      }
    }
  }

  lemma PutPrefix(s: seq<real>, x: real, n: nat)
    requires Falling(s) && n < |s| && s[|s| - 1] >= x
    ensures Take(Put(s[..n], x), n) == s[..n]
  {
    if n > 0 {
      assert s[n - 1] >= s[|s| - 1];
      assert Put(s[..n], x) == s[..n] + [x];
    }
  }

  lemma BestSnoc(s: seq<real>, x: real, n: nat)
    ensures Best(s + [x], n) == Take(Put(Best(s, n), x), n)
  {
    assert (s + [x])[..|s|] == s;
    RankedOk(s);
    TakePut(Ranked(s), x, n);
  }

  lemma BestTwice(s: seq<real>, n: nat)
    ensures Best(Best(s, n), n) == Best(s, n)
  {
    RankedOk(s);
    RankedFixed(Best(s, n));
  }

  /** The best of a list are the best of its head and the rest. */
  lemma {:induction false} BestOfHead(a: seq<real>, b: seq<real>, n: nat)
    ensures Best(Best(a, n) + b, n) == Best(a + b, n)
    decreases |b|
  {
    if b == [] {
      assert a + b == a && Best(a, n) + b == Best(a, n);
      BestTwice(a, n);
    } else {
      var l := |b| - 1;
      BestOfHead(a, b[..l], n);
      assert a + b == (a + b[..l]) + [b[l]];
      assert Best(a, n) + b == (Best(a, n) + b[..l]) + [b[l]];
      BestSnoc(a + b[..l], b[l], n);
      BestSnoc(Best(a, n) + b[..l], b[l], n);
    }
  }

  lemma BestSwap(a: seq<real>, b: seq<real>, n: nat)
    ensures Best(a + b, n) == Best(b + a, n)
  {
    assert multiset(a + b) == multiset(b + a);
    RankedByContents(a + b, b + a);
  }

  lemma BestOfHeads(a: seq<real>, b: seq<real>, n: nat)
    ensures Best(Best(a, n) + Best(b, n), n) == Best(a + b, n)
  {
    BestOfHead(a, Best(b, n), n);
    BestSwap(a, Best(b, n), n);
    BestOfHead(b, a, n);
    BestSwap(b, a, n);
  }

  function Joined<T>(parts: seq<seq<T>>): seq<T> {
    if parts == [] then [] else Joined(parts[..|parts| - 1]) + parts[|parts| - 1]
  }

  function Heads(parts: seq<seq<real>>, n: nat): seq<seq<real>> {
    seq(|parts|, i requires 0 <= i < |parts| => Best(parts[i], n))
  }

  /** However the scan is split, the best of the heads are the best of all. */
  lemma {:induction false} SplitScan(parts: seq<seq<real>>, n: nat)
    ensures Best(Joined(Heads(parts, n)), n) == Best(Joined(parts), n)
  {
    if parts != [] {
      var l := |parts| - 1;
      SplitScan(parts[..l], n);
      assert Heads(parts, n)[..l] == Heads(parts[..l], n);
      BestOfHead(Joined(Heads(parts[..l], n)), Best(parts[l], n), n);
      BestOfHead(Joined(parts[..l]), parts[l], n);
      BestOfHeads(Best(Joined(parts[..l]), n), parts[l], n);
      BestTwice(Joined(parts[..l]), n);
    }
  }

  // ---------- top_k ----------

  predicate ByScore(hits: seq<Hit>) { forall i, j :: 0 <= i < j < |hits| ==> hits[i].1 >= hits[j].1 }

  /** `select_nth_unstable_by` and `truncate`: some best `n`, in some order. */
  method SelectBest(hits: seq<Hit>, n: nat) returns (best: seq<Hit>, ghost left: seq<Hit>)
    requires 0 < n < |hits|
    ensures |best| == n && multiset(best) + multiset(left) == multiset(hits)
    ensures forall a, b :: a in best && b in left ==> a.1 >= b.1
  {
    var sorted := SortDescending(hits);
    best := sorted[..n];
    left := sorted[n..];
    assert sorted == best + left;
    forall a, b | a in best && b in left ensures a.1 >= b.1 {
      var i :| 0 <= i < n && best[i] == a;
      var j :| 0 <= j < |left| && left[j] == b;
      assert sorted[i] == a && sorted[n + j] == b;
    }
  }

  lemma SplicedContents(hits: seq<Hit>, k: nat, x: Hit)
    requires k <= |hits|
    ensures multiset(hits[..k] + [x] + hits[k..]) == multiset(hits) + multiset{x}
  {
    assert hits == hits[..k] + hits[k..];
  }

  /** A hit put after those at least as good and before the others. */
  lemma SplicedOrder(hits: seq<Hit>, k: nat, x: Hit)
    requires ByScore(hits) && k <= |hits| && forall j :: 0 <= j < k ==> hits[j].1 >= x.1
    requires k < |hits| ==> hits[k].1 < x.1
    ensures ByScore(hits[..k] + [x] + hits[k..])
  {
    var r := hits[..k] + [x] + hits[k..];
    forall j | k < j < |r| ensures r[j] == hits[j - 1] && r[j].1 <= x.1 { }
    forall i, j | 0 <= i < j < |r| ensures r[i].1 >= r[j].1 {
      if j < k {
        assert r[i] == hits[i] && r[j] == hits[j];
      } else if j == k || i == k {
        assert r[k] == x;
      } else if i < k {
        assert r[i] == hits[i] && r[j] == hits[j - 1];
      } else {
        assert r[i] == hits[i - 1] && r[j] == hits[j - 1];
      }
    }
  }

  method InsertHit(hits: seq<Hit>, x: Hit) returns (r: seq<Hit>)
    requires ByScore(hits)
    ensures ByScore(r) && multiset(r) == multiset(hits) + multiset{x} && |r| == |hits| + 1
  {
    hide ByScore;
    var k := 0;
    while k < |hits| && hits[k].1 >= x.1
      invariant k <= |hits| && forall j :: 0 <= j < k ==> hits[j].1 >= x.1
    {
      k := k + 1;
    }
    r := hits[..k] + [x] + hits[k..];
    SplicedContents(hits, k, x);
    SplicedOrder(hits, k, x);
  }

  /** `sort_by`, by insertion. */
  method SortDescending(hits: seq<Hit>) returns (r: seq<Hit>)
    ensures ByScore(r) && multiset(r) == multiset(hits) && |r| == |hits|
  {
    r := [];
    for i := 0 to |hits|
      invariant ByScore(r) && multiset(r) == multiset(hits[..i]) && |r| == i
    {
      assert hits[..i + 1] == hits[..i] + [hits[i]];
      r := InsertHit(r, hits[i]);
    }
    assert hits[..|hits|] == hits;
  }

  lemma Without<T>(s: seq<T>, k: nat)
    requires k < |s|
    ensures multiset(s[..k] + s[k + 1..]) == multiset(s) - multiset{s[k]}
  {
    assert s == s[..k] + [s[k]] + s[k + 1..];
  }

  lemma ScoresWithout(s: seq<Hit>, k: nat)
    requires k < |s|
    ensures Scores(s[..k] + s[k + 1..]) == Scores(s)[..k] + Scores(s)[k + 1..]
  {
  }

  lemma AddBack<T>(a: multiset<T>, b: multiset<T>, x: T)
    requires a - multiset{x} == b - multiset{x} && x in a && x in b
    ensures a == b
  {
    assert a == (a - multiset{x}) + multiset{x} && b == (b - multiset{x}) + multiset{x};
  }

  lemma ScoresTail(a: seq<Hit>, b: seq<Hit>, k: nat)
    requires a != [] && k < |b| && b[k] == a[0]
    requires multiset(Scores(a[1..])) == multiset(Scores(b[..k] + b[k + 1..]))
    ensures multiset(Scores(a)) == multiset(Scores(b))
  {
    assert Scores(a[1..]) == Scores(a)[1..];
    TailContents(Scores(a));
    ScoresWithout(b, k);
    Without(Scores(b), k);
    assert Scores(a)[0] in Scores(a) && Scores(b)[k] in Scores(b);
    AddBack(multiset(Scores(a)), multiset(Scores(b)), a[0].1);
  }

  lemma {:induction false} ScoresMultiset(a: seq<Hit>, b: seq<Hit>)
    requires multiset(a) == multiset(b)
    ensures multiset(Scores(a)) == multiset(Scores(b))
  {
    SameLength(a, b);
    if a == [] {
      assert Scores(a) == [] && Scores(b) == [];
    } else {
      assert a[0] in multiset(b);
      var k :| 0 <= k < |b| && b[k] == a[0];
      TailContents(a);
      Without(b, k);
      ScoresMultiset(a[1..], b[..k] + b[k + 1..]);
      ScoresTail(a, b, k);
    }
  }

  lemma {:induction false} OccursOnce(s: seq<Hit>, h: Hit)
    requires NoDup(s)
    ensures multiset(s)[h] == if h in s then 1 else 0
  {
    if s != [] {
      var l := |s| - 1;
      assert s == s[..l] + [s[l]] && s[l] !in s[..l];
      OccursOnce(s[..l], h);
    }
  }

  lemma WithinOnce(all: seq<Hit>, r: seq<Hit>)
    requires NoDup(all) && multiset(r) <= multiset(all)
    ensures NoDup(r) && forall h :: h in r ==> h in all
  {
    forall h | h in r ensures h in all { assert h in multiset(r); }
    forall i, j | 0 <= i < j < |r| ensures r[i] != r[j] {
      OccursOnce(all, r[i]);
      assert multiset(r)[r[i]] <= multiset(all)[r[i]];
      if r[i] == r[j] { TwiceIn(r, i, j); }
    }
  }

  lemma TwiceIn(s: seq<Hit>, i: nat, j: nat)
    requires i < j < |s| && s[i] == s[j]
    ensures multiset(s)[s[i]] >= 2
  {
    assert s == s[..j] + [s[j]] + s[j + 1..];
    assert s[..j][i] == s[i] && s[i] in multiset(s[..j]);
  }

  /** Entries that beat everything left out have the best scores. */
  lemma BestScores(hits: seq<Hit>, best: seq<Hit>, left: seq<Hit>)
    requires multiset(best) + multiset(left) == multiset(hits) && ByScore(best)
    requires forall a, b :: a in best && b in left ==> a.1 >= b.1
    ensures Scores(best) == Best(Scores(hits), |best|)
  {
    hide Ranked;
    var rest := Scores(left);
    var whole := Scores(best) + Ranked(rest);
    RankedOk(rest);
    assert multiset(best + left) == multiset(hits);
    ScoresMultiset(best + left, hits);
    assert Scores(best + left) == Scores(best) + rest;
    assert multiset(whole) == multiset(Scores(hits));
    forall i, j | 0 <= i < j < |whole| ensures whole[i] >= whole[j] {
      if i < |best| && j >= |best| {
        assert whole[j] in multiset(rest);
        var k :| 0 <= k < |left| && rest[k] == whole[j];
        assert best[i] in best && left[k] in left;
      }
    }
    RankedOk(Scores(hits));
    FallingUnique(whole, Ranked(Scores(hits)));
  }

  /** The best `limit` entries, best first. */
  method TopHits(hits: seq<Hit>, limit: nat) returns (r: seq<Hit>)
    ensures Scores(r) == Best(Scores(hits), limit) && multiset(r) <= multiset(hits)
  {
    if limit == 0 { return []; }
    var kept := hits;
    ghost var left: seq<Hit> := [];
    if limit < |hits| { kept, left := SelectBest(hits, limit); }
    r := SortDescending(kept);
    forall a | a in r ensures a in kept { assert a in multiset(r); }
    BestScores(hits, r, left);
    RankedOk(Scores(hits));
  }
}
