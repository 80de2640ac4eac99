/** The listings of concepts (crates/graph/src/graph.rs): the trigram path, the
    bucket path, the merge over the buckets of the subtypes and the global
    scan all return one and the same page of one ordered listing, and following
    the cursors visits that listing once. */
module Listing {
  import opened Collections
  import opened Text
  import opened OntologySchema
  import opened GraphState
  import opened Indexes
  import opened Consistency
  import opened Engine

  // ---------- the ordered listing ----------

  /** `types` is the accepted set of type names, if there is a type filter. */
  datatype Query = Query(types: Option<set<string>>, needle: Option<string>)

  ghost predicate Accepts(q: Query, c: Concept) {
    && (q.types.Some? ==> c.ctype in q.types.value)
    && (q.needle.Some? ==> Contains(Lower(c.name), q.needle.value))
  }

  /** Within a type filter the order is by name and id only. */
  function KeyFor(filtered: bool, k: ConceptKey): ConceptKey { (if filtered then "" else k.0, k.1, k.2) }

  function RowKey(filtered: bool, c: Concept): ConceptKey { KeyFor(filtered, SortKey(c, c.id)) }

  /** The sort keys of the accepted concepts. */
  ghost function Matching(st: State, q: Query): set<ConceptKey> {
    set id | id in st.concepts && Accepts(q, st.concepts[id]) :: RowKey(q.types.Some?, st.concepts[id])
  }

  predicate Past(after: Option<ConceptKey>, k: ConceptKey) { after.Some? ==> ConceptKeyLt(after.value, k) }

  ghost function MatchingAfter(st: State, q: Query, after: Option<ConceptKey>): set<ConceptKey> {
    set k | k in Matching(st, q) && Past(after, k)
  }

  /** What a plain scan lists, strictly after the cursor. */
  ghost function ListAfter(st: State, q: Query, after: Option<ConceptKey>): seq<ConceptKey> {
    ConceptKeyOrder();
    Ascending(ConceptKeyLt, MatchingAfter(st, q, after))
  }

  ghost function ListAll(st: State, q: Query): seq<ConceptKey> { ListAfter(st, q, None) }

  lemma MatchingMember(st: State, q: Query, k: ConceptKey)
    requires WellFormed(st)
    ensures k in Matching(st, q) <==>
      k.2 in st.concepts && Accepts(q, st.concepts[k.2]) && RowKey(q.types.Some?, st.concepts[k.2]) == k
  {
  }

  /** A sorted list with the right members is the listing. */
  lemma IsListing(st: State, q: Query, after: Option<ConceptKey>, keys: seq<ConceptKey>)
    requires Sorted(ConceptKeyLt, keys) && forall k :: k in keys <==> k in MatchingAfter(st, q, after)
    ensures keys == ListAfter(st, q, after)
  {
    ConceptKeyOrder();
    AscendingUnique(ConceptKeyLt, MatchingAfter(st, q, after), keys);
  }

  function Least(a: nat, b: nat): nat { if a <= b then a else b }

  /** `skip(offset).take(limit)`. */
  function Slice<T>(s: seq<T>, offset: nat, limit: nat): seq<T> {
    s[Least(offset, |s|)..Least(offset + limit, |s|)]
  }

  lemma SliceSnoc<T>(s: seq<T>, x: T, offset: nat, limit: nat)
    ensures Slice(s + [x], offset, limit) ==
      (if |s| >= offset && |Slice(s, offset, limit)| < limit then Slice(s, offset, limit) + [x] else Slice(s, offset, limit))
  {
  }

  /** A full page out of a prefix is the page out of the whole. */
  lemma SlicePrefix<T>(a: seq<T>, b: seq<T>, offset: nat, limit: nat)
    requires a <= b && |Slice(a, offset, limit)| >= limit
    ensures Slice(a, offset, limit) == Slice(b, offset, limit)
    ensures limit > 0 ==> |a| >= offset + limit
  {
    if limit > 0 {
      assert b[offset..offset + limit] == a[offset..offset + limit];
    }
  }

  /** The count a listing reports; without tracking it stops once the page is full. */
  function Counted(n: nat, offset: nat, limit: nat, track: bool): nat {
    if track then n else Least(n, if limit == 0 then 1 else offset + limit)
  }

  function Rows(concepts: map<nat, Concept>, keys: seq<ConceptKey>): seq<Concept>
    requires forall k :: k in keys ==> k.2 in concepts
  {
    seq(|keys|, i requires 0 <= i < |keys| => concepts[keys[i].2])
  }

  lemma ListingLive(st: State, q: Query, after: Option<ConceptKey>)
    requires WellFormed(st)
    ensures forall k :: k in ListAfter(st, q, after) ==> k.2 in st.concepts
  {
    ConceptKeyOrder();
    AscendingMembers(ConceptKeyLt, MatchingAfter(st, q, after));
    forall k | k in ListAfter(st, q, after) ensures k.2 in st.concepts { MatchingMember(st, q, k); }
  }

  /** Which of two rows comes first: by type, unless the listing is of one type
      and its subtypes, then by name, then by id. */
  predicate Comes(filtered: bool, a: Concept, b: Concept) {
    if !filtered && a.ctype != b.ctype then StringLt(a.ctype, b.ctype)
    else if a.name != b.name then StringLt(a.name, b.name) else a.id < b.id
  }

  /** The listing has every accepted concept once, in that order. */
  lemma ListedInOrder(st: State, q: Query)
    requires WellFormed(st)
    ensures var list := ListAll(st, q);
      && (forall i :: 0 <= i < |list| ==> list[i].2 in st.concepts && Accepts(q, st.concepts[list[i].2]))
      && (forall id :: id in st.concepts && Accepts(q, st.concepts[id]) ==> exists i :: 0 <= i < |list| && list[i].2 == id)
      && (forall i, j :: 0 <= i < j < |list| ==> Comes(q.types.Some?, st.concepts[list[i].2], st.concepts[list[j].2]))
  {
    var list := ListAll(st, q);
    ConceptKeyOrder();
    AscendingMembers(ConceptKeyLt, MatchingAfter(st, q, None));
    AscendingSorted(ConceptKeyLt, MatchingAfter(st, q, None));
    forall i | 0 <= i < |list| ensures list[i].2 in st.concepts && Accepts(q, st.concepts[list[i].2])
      && RowKey(q.types.Some?, st.concepts[list[i].2]) == list[i]
    {
      assert list[i] in list;
      MatchingMember(st, q, list[i]);
    }
    forall id | id in st.concepts && Accepts(q, st.concepts[id]) ensures exists i :: 0 <= i < |list| && list[i].2 == id {
      assert RowKey(q.types.Some?, st.concepts[id]) in list;
    }
    forall i, j | 0 <= i < j < |list| ensures Comes(q.types.Some?, st.concepts[list[i].2], st.concepts[list[j].2]) {
      KeysCompare(list[i], list[j]);
    }
  }

  // ---------- one page out of an ordered list ----------

  ghost predicate NameMatches(needle: Option<string>, k: ConceptKey) {
    needle.Some? ==> Contains(Lower(k.1), needle.value)
  }

  /** The keys whose names match, in order. */
  ghost function Keep(keys: seq<ConceptKey>, needle: Option<string>): seq<ConceptKey> {
    if keys == [] then [] else
    var l := |keys| - 1;
    if NameMatches(needle, keys[l]) then Keep(keys[..l], needle) + [keys[l]] else Keep(keys[..l], needle)
  }

  lemma {:induction false} KeepMembers(keys: seq<ConceptKey>, needle: Option<string>)
    ensures forall k :: k in Keep(keys, needle) <==> k in keys && NameMatches(needle, k)
  {
    if keys != [] {
      var l := |keys| - 1;
      KeepMembers(keys[..l], needle);
      assert keys == keys[..l] + [keys[l]];
    }
  }

  lemma {:induction false} KeepSorted(keys: seq<ConceptKey>, needle: Option<string>)
    requires Sorted(ConceptKeyLt, keys)
    ensures Sorted(ConceptKeyLt, Keep(keys, needle))
  {
    if keys != [] {
      var l := |keys| - 1;
      KeepSorted(keys[..l], needle);
      KeepMembers(keys[..l], needle);
      forall k | k in keys[..l] ensures ConceptKeyLt(k, keys[l]) {
        var i :| 0 <= i < l && keys[..l][i] == k;
        assert keys[i] == k;
      }
    }
  }

  lemma KeepSnoc(keys: seq<ConceptKey>, needle: Option<string>, i: nat)
    requires i < |keys|
    ensures Keep(keys[..i + 1], needle) ==
      if NameMatches(needle, keys[i]) then Keep(keys[..i], needle) + [keys[i]] else Keep(keys[..i], needle)
  {
    assert keys[..i + 1][..i] == keys[..i];
  }

  lemma {:induction false} KeepPrefix(keys: seq<ConceptKey>, needle: Option<string>, i: nat)
    requires i <= |keys|
    ensures Keep(keys[..i], needle) <= Keep(keys, needle)
    decreases |keys|
  {
    if i == |keys| {
      assert keys[..i] == keys;
    } else {
      var l := |keys| - 1;
      assert keys[..l][..i] == keys[..i];
      KeepPrefix(keys[..l], needle, i);
    }
  }

  method NameFits(needle: Option<string>, k: ConceptKey) returns (r: bool)
    ensures r <==> NameMatches(needle, k)
  {
    if needle.None? { return true; }
    r := FindSubstring(Lower(k.1), needle.value);
  }

  /** The `consume` loop: rank, skip, fill, and stop when full. */
  method Consume(keys: seq<ConceptKey>, needle: Option<string>, offset: nat, limit: nat, track: bool)
    returns (total: nat, page: seq<ConceptKey>)
    ensures page == Slice(Keep(keys, needle), offset, limit)
    ensures total == Counted(|Keep(keys, needle)|, offset, limit, track)
  {
    total, page := 0, [];
    var i := 0;
    while i < |keys|
      invariant i <= |keys| && total == |Keep(keys[..i], needle)| && page == Slice(Keep(keys[..i], needle), offset, limit)
      invariant track || total < (if limit == 0 then 1 else offset + limit)
    {
      var fits := NameFits(needle, keys[i]);
      ghost var kept := Keep(keys[..i], needle);
      KeepSnoc(keys, needle, i);
      i := i + 1;
      if fits {
        SliceSnoc(kept, keys[i - 1], offset, limit);
        if total >= offset && |page| < limit { page := page + [keys[i - 1]]; }
        total := total + 1;
        if |page| >= limit && !track {
          KeepPrefix(keys, needle, i);
          SlicePrefix(Keep(keys[..i], needle), Keep(keys, needle), offset, limit);
          return;
        }
      }
    }
    assert keys[..|keys|] == keys;
  }

  // ---------- merging the buckets of several types ----------

  type Head = (ConceptKey, nat)

  predicate HeadLt(a: Head, b: Head) { ConceptKeyLt(a.0, b.0) || (a.0 == b.0 && a.1 < b.1) }

  lemma HeadOrder()
    ensures StrictOrder(HeadLt)
  {
    ConceptKeyOrder();
  }

  ghost predicate RunsOk(runs: seq<seq<ConceptKey>>) {
    && (forall i :: 0 <= i < |runs| ==> Sorted(ConceptKeyLt, runs[i]))
    && (forall i, j :: 0 <= i < j < |runs| ==> Elems(runs[i]) !! Elems(runs[j]))
  }

  ghost predicate InRuns(runs: seq<seq<ConceptKey>>, k: ConceptKey) {
    exists i :: 0 <= i < |runs| && k in runs[i]
  }

  /** One entry per run that is not exhausted: its first key. */
  ghost predicate HeapOk(runs: seq<seq<ConceptKey>>, heap: set<Head>) {
    && (forall i :: 0 <= i < |runs| && runs[i] != [] ==> (runs[i][0], i) in heap)
    && (forall h :: h in heap ==> h.1 < |runs| && runs[h.1] != [] && runs[h.1][0] == h.0)
  }

  function TotalLength(runs: seq<seq<ConceptKey>>): nat {
    if runs == [] then 0 else TotalLength(runs[..|runs| - 1]) + |runs[|runs| - 1]|
  }

  lemma {:induction false} ShorterRun(runs: seq<seq<ConceptKey>>, i: nat)
    requires i < |runs| && runs[i] != []
    ensures TotalLength(runs[i := runs[i][1..]]) == TotalLength(runs) - 1
  {
    var l := |runs| - 1;
    var after := runs[i := runs[i][1..]];
    if i < l {
      assert after[..l] == runs[..l][i := runs[i][1..]];
      ShorterRun(runs[..l], i);
    } else {
      assert after[..l] == runs[..l];
    }
  }

  /** The least head is below everything else that is left. */
  lemma HeadIsLeast(runs: seq<seq<ConceptKey>>, heap: set<Head>, h: Head, k: ConceptKey)
    requires RunsOk(runs) && HeapOk(runs, heap) && IsLeast(HeadLt, heap, h) && InRuns(runs, k) && k != h.0
    ensures ConceptKeyLt(h.0, k)
  {
    ConceptKeyOrder();
    var i :| 0 <= i < |runs| && k in runs[i];
    var j :| 0 <= j < |runs[i]| && runs[i][j] == k;
    var first: Head := (runs[i][0], i);
    assert first in heap;
    if first != h {
      assert HeadLt(h, first);
      if first.0 == h.0 { assert h.0 in Elems(runs[h.1]) && h.0 in Elems(runs[i]); }
    }
    if j > 0 { assert ConceptKeyLt(runs[i][0], runs[i][j]); }
  }

  lemma RunsAdvance(runs: seq<seq<ConceptKey>>, heap: set<Head>, h: Head)
    requires RunsOk(runs) && HeapOk(runs, heap) && h in heap
    ensures var rest := runs[h.1][1..];
      && RunsOk(runs[h.1 := rest])
      && HeapOk(runs[h.1 := rest], if rest == [] then heap - {h} else heap - {h} + {(rest[0], h.1)})
      && (forall k :: InRuns(runs, k) <==> k == h.0 || InRuns(runs[h.1 := rest], k)) && !InRuns(runs[h.1 := rest], h.0)
  {
    ConceptKeyOrder();
    var run := runs[h.1];
    var rest := run[1..];
    var after := runs[h.1 := rest];
    assert run == [h.0] + rest;
    assert Elems(run) == {h.0} + Elems(rest);
    assert Sorted(ConceptKeyLt, rest);
    forall j | 0 <= j < |rest| ensures rest[j] != h.0 { assert ConceptKeyLt(run[0], run[j + 1]); }
    forall k ensures InRuns(runs, k) <==> k == h.0 || InRuns(after, k) {
      if k == h.0 { assert k in runs[h.1]; }
      if i :| 0 <= i < |runs| && k in runs[i] && k != h.0 { assert k in after[i]; }
      if i :| 0 <= i < |after| && k in after[i] { assert k in runs[i]; }
    }
    assert h.0 in Elems(runs[h.1]);
    forall i | 0 <= i < |after| ensures h.0 !in after[i] {
      assert i != h.1 ==> Elems(runs[i]) !! Elems(runs[h.1]);
    }
  }

  /** What was popped is sorted and below what is left. */
  ghost predicate Merging(start: seq<seq<ConceptKey>>, runs: seq<seq<ConceptKey>>, out: seq<ConceptKey>) {
    && Sorted(ConceptKeyLt, out)
    && (forall k :: InRuns(start, k) <==> k in out || InRuns(runs, k))
    && (forall a, b :: a in out && InRuns(runs, b) ==> ConceptKeyLt(a, b))
  }

  lemma MergeStep(start: seq<seq<ConceptKey>>, runs: seq<seq<ConceptKey>>, heap: set<Head>, h: Head, out: seq<ConceptKey>)
    requires Merging(start, runs, out) && RunsOk(runs) && HeapOk(runs, heap) && IsLeast(HeadLt, heap, h)
    ensures Merging(start, runs[h.1 := runs[h.1][1..]], out + [h.0])
  {
    var after := runs[h.1 := runs[h.1][1..]];
    RunsAdvance(runs, heap, h);
    assert InRuns(runs, h.0);
    forall k | InRuns(after, k) ensures ConceptKeyLt(h.0, k) { HeadIsLeast(runs, heap, h, k); }
    forall k ensures InRuns(start, k) <==> k in out + [h.0] || InRuns(after, k) {
      assert InRuns(start, k) <==> k in out || InRuns(runs, k);
    }
  }

  method PopLeast(heap: set<Head>) returns (h: Head)
    requires heap != {}
    ensures IsLeast(HeadLt, heap, h)
  {
    HeadOrder();
    ghost var w := LeastExists(HeadLt, heap);
    h :| h in heap && forall x :: x in heap && x != h ==> HeadLt(h, x);
  }

  lemma NoneLeft(runs: seq<seq<ConceptKey>>)
    requires HeapOk(runs, {})
    ensures forall k :: !InRuns(runs, k)
  {
    assert forall i :: 0 <= i < |runs| ==> runs[i] == [];
  }

  /** The k-way merge: a heap of the first keys of every run. */
  method MergeRuns(start: seq<seq<ConceptKey>>) returns (out: seq<ConceptKey>)
    requires RunsOk(start)
    ensures Sorted(ConceptKeyLt, out) && forall k :: k in out <==> InRuns(start, k)
  {
    var runs := start;
    var heap: set<Head> := set i | 0 <= i < |runs| && runs[i] != [] :: (runs[i][0], i);
    out := [];
    while heap != {}
      invariant RunsOk(runs) && HeapOk(runs, heap) && Merging(start, runs, out)
      decreases TotalLength(runs)
    {
      var h := PopLeast(heap);
      MergeStep(start, runs, heap, h, out);
      RunsAdvance(runs, heap, h);
      ShorterRun(runs, h.1);
      out := out + [h.0];
      var rest := runs[h.1][1..];
      runs := runs[h.1 := rest];
      heap := if rest == [] then heap - {h} else heap - {h} + {(rest[0], h.1)};
    }
    NoneLeft(runs);
  }

  // ---------- the plain scan ----------

  /** The accepted type names of a request. */
  ghost function TypeFilter(schema: Schema, ctype: Option<string>, subtypes: bool): Option<set<string>> {
    if ctype.None? then None else
    Some(if subtypes then Elems(Descendants(schema, ctype.value)) else {ctype.value})
  }

  function Plain(b: BucketKey): ConceptKey { ("", b.0, b.1) }

  /** One bucket entered with `range`, strictly after the cursor. */
  function BucketAfter(byType: map<string, set<BucketKey>>, t: string, after: Option<ConceptKey>): set<ConceptKey> {
    set b | b in Bucket(byType, t) && Past(after, Plain(b)) :: Plain(b)
  }

  ghost predicate InBucket(st: State, t: string, after: Option<ConceptKey>, k: ConceptKey) {
    k.2 in st.concepts && st.concepts[k.2].ctype == t && RowKey(true, st.concepts[k.2]) == k && Past(after, k)
  }

  lemma BucketAfterExact(st: State, ix: Index, t: string, after: Option<ConceptKey>)
    requires Consistent(st, ix, false)
    ensures forall k :: k in BucketAfter(ix.byType, t, after) <==> InBucket(st, t, after, k)
  {
    forall k ensures k in BucketAfter(ix.byType, t, after) <==> InBucket(st, t, after, k) {
      var b: BucketKey := (k.1, k.2);
      assert b in Bucket(ix.byType, t) <==> k.2 in st.concepts && st.concepts[k.2].ctype == t && st.concepts[k.2].name == k.1;
      if k in BucketAfter(ix.byType, t, after) {
        var c :| c in Bucket(ix.byType, t) && Past(after, Plain(c)) && Plain(c) == k;
        assert c == b;
      }
      if InBucket(st, t, after, k) { assert Plain(b) == k; }
    }
  }

  method BucketRun(g: OntologyGraph, t: string, after: Option<ConceptKey>) returns (run: seq<ConceptKey>)
    requires g.Valid() && !g.bulk
    ensures Sorted(ConceptKeyLt, run) && forall k :: k in run <==> InBucket(g.st, t, after, k)
  {
    ConceptKeyOrder();
    BucketAfterExact(g.st, g.ix, t, after);
    run := InOrder(ConceptKeyLt, BucketAfter(g.ix.byType, t, after));
  }

  /** The runs of several types never share a key. */
  method BucketRuns(g: OntologyGraph, types: seq<string>, after: Option<ConceptKey>) returns (runs: seq<seq<ConceptKey>>)
    requires g.Valid() && !g.bulk && NoDup(types)
    ensures RunsOk(runs) && |runs| == |types|
    ensures forall i :: 0 <= i < |types| ==> forall k :: k in runs[i] <==> InBucket(g.st, types[i], after, k)
  {
    runs := [];
    for i := 0 to |types|
      invariant |runs| == i && forall j :: 0 <= j < i ==> Sorted(ConceptKeyLt, runs[j])
      invariant forall j :: 0 <= j < i ==> forall k :: k in runs[j] <==> InBucket(g.st, types[j], after, k)
    {
      var run := BucketRun(g, types[i], after);
      runs := runs + [run];
    }
    forall i, j | 0 <= i < j < |runs| ensures Elems(runs[i]) !! Elems(runs[j]) {
      assert types[i] != types[j];
      assert forall k :: k in runs[i] ==> InBucket(g.st, types[i], after, k) && k !in runs[j];
    }
  }

  method DescendantNames(g: OntologyGraph, t: string) returns (types: seq<string>)
    requires g.Valid()
    ensures types == Descendants(g.st.schema, t) && NoDup(types)
  {
    var index := BuildDescendantsIndex(g.st.schema);
    types := if t in index then index[t] else [];
    StringOrder();
    if t in index {
      AscendingSorted(StringLt, DescendantSet(g.st.schema, t));
      SortedNoDup(StringLt, types);
    }
  }

  /** Every key of the type filter after the cursor, in listing order: the
      merged buckets of the subtypes, one bucket, or the sorted set. */
  method ScanKeys(g: OntologyGraph, ctype: Option<string>, subtypes: bool, after: Option<ConceptKey>) returns (keys: seq<ConceptKey>)
    requires g.Valid() && !g.bulk
    ensures Sorted(ConceptKeyLt, keys)
    ensures forall k :: k in keys <==> k in MatchingAfter(g.st, Query(TypeFilter(g.st.schema, ctype, subtypes), None), after)
  {
    ConceptKeyOrder();
    ghost var q := Query(TypeFilter(g.st.schema, ctype, subtypes), None);
    if ctype.None? {
      GlobalKeys(g.st, g.ix, q, after);
      keys := InOrder(ConceptKeyLt, set k | k in g.ix.sorted && Past(after, k));
    } else if subtypes {
      var types := DescendantNames(g, ctype.value);
      var runs := BucketRuns(g, types, after);
      keys := MergeRuns(runs);
      forall k ensures InRuns(runs, k) <==> k in MatchingAfter(g.st, q, after) { MergedKey(g.st, q, types, runs, after, k); }
    } else {
      keys := BucketRun(g, ctype.value, after);
      forall k ensures k in keys <==> k in MatchingAfter(g.st, q, after) { MatchingMember(g.st, q, k); }
    }
  }

  lemma GlobalKeys(st: State, ix: Index, q: Query, after: Option<ConceptKey>)
    requires Consistent(st, ix, false) && q == Query(None, None)
    ensures forall k :: k in ix.sorted && Past(after, k) <==> k in MatchingAfter(st, q, after)
  {
    forall k ensures k in ix.sorted <==> k in Matching(st, q) {
      MatchingMember(st, q, k);
      assert k == (k.0, k.1, k.2);
    }
  }

  lemma MergedKey(st: State, q: Query, types: seq<string>, runs: seq<seq<ConceptKey>>, after: Option<ConceptKey>, k: ConceptKey)
    requires WellFormed(st) && q == Query(Some(Elems(types)), None) && |runs| == |types|
    requires forall i :: 0 <= i < |types| ==> forall k :: k in runs[i] <==> InBucket(st, types[i], after, k)
    ensures InRuns(runs, k) <==> k in MatchingAfter(st, q, after)
  {
    MatchingMember(st, q, k);
    if k in MatchingAfter(st, q, after) {
      var i :| 0 <= i < |types| && types[i] == st.concepts[k.2].ctype;
      assert InBucket(st, types[i], after, k);
    }
    if i :| 0 <= i < |runs| && k in runs[i] { assert InBucket(st, types[i], after, k) && types[i] in types; }
  }

  /** Filtering the scan by name gives the listing. */
  lemma KeptIsListing(st: State, types: Option<set<string>>, needle: Option<string>, after: Option<ConceptKey>, keys: seq<ConceptKey>)
    requires WellFormed(st) && Sorted(ConceptKeyLt, keys)
    requires forall k :: k in keys <==> k in MatchingAfter(st, Query(types, None), after)
    ensures Keep(keys, needle) == ListAfter(st, Query(types, needle), after)
  {
    KeepSorted(keys, needle);
    KeepMembers(keys, needle);
    forall k ensures k in Keep(keys, needle) <==> k in MatchingAfter(st, Query(types, needle), after) {
      MatchingMember(st, Query(types, None), k);
      MatchingMember(st, Query(types, needle), k);
    }
    IsListing(st, Query(types, needle), after, Keep(keys, needle));
  }

  // ---------- the trigram path ----------

  predicate IsFast(needle: Option<string>) { needle.Some? && Trigrams(needle.value) != {} }

  /** The ids that every trigram bucket of the needle holds; nothing if a
      trigram occurs in no name. */
  method Candidates(g: OntologyGraph, needle: string) returns (ids: set<nat>)
    requires g.Valid() && !g.bulk && Trigrams(needle) != {}
    ensures forall id :: id in ids ==> id in g.st.concepts
    ensures forall id :: id in g.st.concepts && Contains(Lower(g.st.concepts[id].name), needle) ==> id in ids
  {
    var grams := Trigrams(needle);
    forall id | id in g.st.concepts && Contains(Lower(g.st.concepts[id].name), needle)
      ensures forall t :: t in grams ==> id in GramBucket(g.ix.grams, t)
    {
      ContainsTrigrams(g.st.concepts[id].name, needle);
    }
    var head :| head in grams;
    if exists t :: t in grams && t !in g.ix.grams {
      return {};
    }
    ids := set id | id in GramBucket(g.ix.grams, head) && forall t :: t in grams ==> id in g.ix.grams[t];
  }

  /** Drop the candidates of another type, and the false positives. */
  method Survivors(g: OntologyGraph, types: Option<set<string>>, needle: string, ids: set<nat>) returns (keys: set<ConceptKey>)
    requires g.Valid() && forall id :: id in ids ==> id in g.st.concepts
    requires forall id :: id in g.st.concepts && Contains(Lower(g.st.concepts[id].name), needle) ==> id in ids
    ensures keys == Matching(g.st, Query(types, Some(needle)))
  {
    ghost var q := Query(types, Some(needle));
    var kept: set<nat> := {};
    var rest := ids;
    while rest != {}
      invariant rest <= ids
      invariant forall id :: id in kept <==> id in ids - rest && Accepts(q, g.st.concepts[id])
      decreases rest
    {
      var id :| id in rest;
      rest := rest - {id};
      if types.None? || g.st.concepts[id].ctype in types.value {
        var found := FindSubstring(Lower(g.st.concepts[id].name), needle);
        if found { kept := kept + {id}; }
      }
    }
    keys := set id | id in kept :: RowKey(types.Some?, g.st.concepts[id]);
    forall k ensures k in keys <==> k in Matching(g.st, q) { MatchingMember(g.st, q, k); }
  }

  /** Intersect, filter, sort and enter at the cursor: the same listing. */
  method FastKeys(g: OntologyGraph, types: Option<set<string>>, needle: string, after: Option<ConceptKey>) returns (keys: seq<ConceptKey>)
    requires g.Valid() && !g.bulk && Trigrams(needle) != {}
    ensures keys == ListAfter(g.st, Query(types, Some(needle)), after)
  {
    ConceptKeyOrder();
    var ids := Candidates(g, needle);
    var survivors := Survivors(g, types, needle, ids);
    keys := InOrder(ConceptKeyLt, set k | k in survivors && Past(after, k));
    assert (set k | k in survivors && Past(after, k)) == MatchingAfter(g.st, Query(types, Some(needle)), after);
  }

  // ---------- pages ----------

  /** Within a type filter the head of the cursor is implied. */
  function Entry(filtered: bool, after: Option<ConceptKey>): Option<ConceptKey> {
    if after.None? then None else Some(KeyFor(filtered, after.value))
  }

  ghost function Asked(schema: Schema, ctype: Option<string>, subtypes: bool, needle: Option<string>): Query {
    Query(TypeFilter(schema, ctype, subtypes), needle)
  }

  method FilterNames(g: OntologyGraph, ctype: Option<string>, subtypes: bool) returns (types: Option<set<string>>)
    requires g.Valid()
    ensures types == TypeFilter(g.st.schema, ctype, subtypes)
  {
    if ctype.None? { return None; }
    if !subtypes { return Some({ctype.value}); }
    var names := DescendantNames(g, ctype.value);
    types := Some(Elems(names));
  }

  /** `list_concepts_page_uncached`: whichever path serves it, the page is cut
      out of the one ordered listing of the matching concepts. */
  method ListConceptsPage(g: OntologyGraph, ctype: Option<string>, needle: Option<string>, offset: nat, limit: nat,
                          track: bool, subtypes: bool, after: Option<ConceptKey>)
    returns (total: nat, page: seq<Concept>)
    requires g.Valid() && !g.bulk
    ensures forall k :: k in ListAfter(g.st, Asked(g.st.schema, ctype, subtypes, needle), Entry(ctype.Some?, after)) ==> k.2 in g.st.concepts
    ensures var list := ListAfter(g.st, Asked(g.st.schema, ctype, subtypes, needle), Entry(ctype.Some?, after));
      && page == Slice(Rows(g.st.concepts, list), offset, limit)
      && total == Counted(|list|, offset, limit, track || IsFast(needle))
  {
    ghost var q := Asked(g.st.schema, ctype, subtypes, needle);
    var entry := Entry(ctype.Some?, after);
    ListingLive(g.st, q, entry);
    var keys;
    if IsFast(needle) {
      var types := FilterNames(g, ctype, subtypes);
      keys := FastKeys(g, types, needle.value, entry);
      total := |keys|;
      keys := Slice(keys, offset, limit);
    } else {
      var all := ScanKeys(g, ctype, subtypes, entry);
      KeptIsListing(g.st, q.types, needle, entry, all);
      total, keys := Consume(all, needle, offset, limit, track);
    }
    SliceRows(g.st.concepts, ListAfter(g.st, q, entry), offset, limit);
    page := Rows(g.st.concepts, keys);
  }

  lemma SliceRows(concepts: map<nat, Concept>, keys: seq<ConceptKey>, offset: nat, limit: nat)
    requires forall k :: k in keys ==> k.2 in concepts
    ensures (forall k :: k in Slice(keys, offset, limit) ==> k in keys)
    ensures Rows(concepts, Slice(keys, offset, limit)) == Slice(Rows(concepts, keys), offset, limit)
  {
  }

  // ---------- cursors ----------

  /** After the last key of a prefix comes the rest of the list. */
  lemma CursorResumes(st: State, q: Query, n: nat)
    requires WellFormed(st) && 0 < n <= |ListAll(st, q)|
    ensures ListAfter(st, q, Some(ListAll(st, q)[n - 1])) == ListAll(st, q)[n..]
  {
    ConceptKeyOrder();
    var all := ListAll(st, q);
    AscendingMembers(ConceptKeyLt, MatchingAfter(st, q, None));
    AscendingSorted(ConceptKeyLt, MatchingAfter(st, q, None));
    forall k ensures k in all[n..] <==> k in MatchingAfter(st, q, Some(all[n - 1])) { SortedTail(ConceptKeyLt, all, n, k); }
    IsListing(st, q, Some(all[n - 1]), all[n..]);
  }

  method ListConceptsAfter(g: OntologyGraph, ctype: Option<string>, needle: Option<string>, after: Option<ConceptKey>,
                           limit: nat, subtypes: bool)
    returns (page: seq<Concept>, next: Option<ConceptKey>)
    requires g.Valid() && !g.bulk
    ensures forall k :: k in ListAfter(g.st, Asked(g.st.schema, ctype, subtypes, needle), Entry(ctype.Some?, after)) ==> k.2 in g.st.concepts
    ensures page == Slice(Rows(g.st.concepts, ListAfter(g.st, Asked(g.st.schema, ctype, subtypes, needle), Entry(ctype.Some?, after))), 0, limit)
    ensures next == if 0 < limit == |page| then Some(SortKey(page[limit - 1], page[limit - 1].id)) else None
  {
    var _, rows := ListConceptsPage(g, ctype, needle, 0, limit, false, subtypes, after);
    page := rows;
    next := if 0 < |page| == limit then Some(SortKey(page[|page| - 1], page[|page| - 1].id)) else None;
  }

  /** Following the cursor until it ends: the pages are the listing cut into
      pieces of `limit` rows, so each matching concept comes once, in order. */
  method WalkConcepts(g: OntologyGraph, ctype: Option<string>, needle: Option<string>, limit: nat, subtypes: bool)
    returns (pages: seq<seq<Concept>>)
    requires g.Valid() && !g.bulk && limit >= 1
    ensures forall k :: k in ListAll(g.st, Asked(g.st.schema, ctype, subtypes, needle)) ==> k.2 in g.st.concepts
    ensures pages == Pieces(Rows(g.st.concepts, ListAll(g.st, Asked(g.st.schema, ctype, subtypes, needle))), limit)
  {
    ghost var q := Asked(g.st.schema, ctype, subtypes, needle);
    FirstRow(g.st, q);
    ghost var w := Walk(g.st, q, ListAll(g.st, q), Rows(g.st.concepts, ListAll(g.st, q)));
    pages := Follow(g, ctype, needle, limit, subtypes, w);
  }

  method Follow(g: OntologyGraph, ctype: Option<string>, needle: Option<string>, limit: nat, subtypes: bool, ghost w: Walk)
    returns (pages: seq<seq<Concept>>)
    requires g.Valid() && !g.bulk && limit >= 1 && w.st == g.st && w.q == Asked(g.st.schema, ctype, subtypes, needle)
    requires Standing(w, None, 0)
    ensures pages == Pieces(w.rows, limit)
  {
    hide Pieces, Consistent;
    var cursor: Option<ConceptKey> := None;
    var more := true;
    ghost var n := 0;
    pages := [];
    assert w.rows[0..] == w.rows && [] + Pieces(w.rows, limit) == Pieces(w.rows, limit);
    while more
      invariant more ==> Standing(w, cursor, n) && pages + Pieces(w.rows[n..], limit) == Pieces(w.rows, limit)
      invariant !more ==> pages == Pieces(w.rows, limit)
      decreases more, |w.list| - n
    {
      var page, next := NextPage(g, ctype, needle, cursor, limit, subtypes, w, n);
      PiecesStep(w.rows, n, limit, pages);
      pages := pages + [page];
      cursor := next;
      more := next.Some?;
      n := n + limit;
    }
  }

  /** What a walk goes through: a fixed graph, the request and its rows. */
  datatype Walk = Walk(st: State, q: Query, list: seq<ConceptKey>, rows: seq<Concept>)

  ghost predicate Standing(w: Walk, cursor: Option<ConceptKey>, n: nat) {
    AtRow(w.st, w.q, cursor, w.list, n) && w.rows == Rows(w.st.concepts, w.list)
  }

  /** Rows cut into pieces; the last one is short, possibly empty. */
  function Pieces<T>(rows: seq<T>, limit: nat): seq<seq<T>>
    requires limit >= 1
    decreases |rows|
  {
    if |rows| < limit then [rows] else [rows[..limit]] + Pieces(rows[limit..], limit)
  }

  lemma PiecesStep<T>(rows: seq<T>, n: nat, limit: nat, before: seq<seq<T>>)
    requires limit >= 1 && n <= |rows|
    ensures var page := Slice(rows, n, limit);
      if |page| == limit then n + limit <= |rows| && before + Pieces(rows[n..], limit) == before + [page] + Pieces(rows[n + limit..], limit)
      else before + Pieces(rows[n..], limit) == before + [page]
  {
    if n + limit <= |rows| {
      assert rows[n..][..limit] == Slice(rows, n, limit) && rows[n..][limit..] == rows[n + limit..];
      ConcatAssoc(before, [Slice(rows, n, limit)], Pieces(rows[n + limit..], limit));
    } else {
      assert rows[n..] == Slice(rows, n, limit);
    }
  }

  /** Each piece is what its offset gives. */
  lemma {:induction false} PieceAt<T>(rows: seq<T>, limit: nat, i: nat)
    requires limit >= 1 && i < |Pieces(rows, limit)|
    ensures Pieces(rows, limit)[i] == Slice(rows, i * limit, limit)
    decreases i
  {
    if |rows| >= limit && i > 0 {
      PieceAt(rows[limit..], limit, i - 1);
      LaterPiece(rows, limit, Pieces(rows[limit..], limit), i);
    }
  }

  /** The pieces join to the rows. */
  lemma {:induction false} PiecesJoin<T>(rows: seq<T>, limit: nat)
    requires limit >= 1
    ensures Joined(Pieces(rows, limit)) == rows
    decreases |rows|
  {
    if |rows| < limit {
      assert Joined([rows]) == [] + rows;
    } else {
      PiecesJoin(rows[limit..], limit);
      JoinedFront([rows[..limit]] + Pieces(rows[limit..], limit));
    }
  }

  lemma LaterPiece<T>(rows: seq<T>, limit: nat, rest: seq<seq<T>>, i: nat)
    requires 1 <= i < |rest| + 1 && limit <= |rows| && rest[i - 1] == Slice(rows[limit..], (i - 1) * limit, limit)
    ensures ([rows[..limit]] + rest)[i] == Slice(rows, i * limit, limit)
  {
    NextMultiple(i - 1, limit);
    SliceOfTail(rows, limit, (i - 1) * limit, limit);
  }

  lemma SliceOfTail<T>(s: seq<T>, n: nat, offset: nat, limit: nat)
    requires n <= |s|
    ensures Slice(s[n..], offset, limit) == Slice(s, n + offset, limit)
  {
  }

  lemma {:induction false} JoinedFront<T>(pages: seq<seq<T>>)
    requires pages != []
    ensures Joined(pages) == pages[0] + Joined(pages[1..])
  {
    var l := |pages| - 1;
    if l > 0 {
      JoinedFront(pages[..l]);
      assert pages[..l][1..] == pages[1..][..l - 1];
      ConcatAssoc(pages[0], Joined(pages[1..][..l - 1]), pages[l]);
    } else {
      assert pages[..l] == [] && pages[1..] == [];
    }
  }

  /** The cursor stands before row `n`. */
  ghost predicate AtRow(st: State, q: Query, after: Option<ConceptKey>, list: seq<ConceptKey>, n: nat) {
    && n <= |list| && list == ListAll(st, q) && ListAfter(st, q, Entry(q.types.Some?, after)) == list[n..]
    && (forall k :: k in list ==> k.2 in st.concepts)
  }

  lemma FirstRow(st: State, q: Query)
    requires WellFormed(st)
    ensures AtRow(st, q, None, ListAll(st, q), 0)
  {
    ListingLive(st, q, None);
    assert ListAll(st, q)[0..] == ListAll(st, q);
  }

  /** What the cursor of a page gives: the next rows, and a cursor after them. */
  ghost predicate PageAt(rows: seq<Concept>, limit: nat, n: nat, page: seq<Concept>, next: Option<ConceptKey>) {
    && page == Slice(rows, n, limit)
    && next == if 0 < limit == |page| then Some(SortKey(page[limit - 1], page[limit - 1].id)) else None
  }

  lemma PageResumes(st: State, q: Query, after: Option<ConceptKey>, list: seq<ConceptKey>, limit: nat, n: nat, page: seq<Concept>, next: Option<ConceptKey>)
    requires WellFormed(st) && limit >= 1 && AtRow(st, q, after, list, n) && PageAt(Rows(st.concepts, list), limit, n, page, next)
    ensures next.Some? ==> AtRow(st, q, next, list, n + limit)
  {
    hide WellFormed, ListAfter, ListAll;
    if next.Some? {
      CursorResumes(st, q, n + limit);
      CursorKey(st, q, n + limit);
    }
  }

  method NextPage(g: OntologyGraph, ctype: Option<string>, needle: Option<string>, cursor: Option<ConceptKey>, limit: nat,
                  subtypes: bool, ghost w: Walk, ghost n: nat)
    returns (page: seq<Concept>, next: Option<ConceptKey>)
    requires g.Valid() && !g.bulk && limit >= 1 && w.st == g.st && w.q == Asked(g.st.schema, ctype, subtypes, needle)
    requires Standing(w, cursor, n)
    ensures page == Slice(w.rows, n, limit) && (next.Some? <==> |page| == limit)
    ensures next.Some? ==> n + limit <= |w.list| && Standing(w, next, n + limit)
  {
    assert WellFormed(g.st);
    assert w.q.types.Some? == ctype.Some?;
    hide Consistent, WellFormed, Standing, Slice, Asked, ListAfter, Rows;
    page, next := ListConceptsAfter(g, ctype, needle, cursor, limit, subtypes);
    PageGiven(w, cursor, limit, n, page, next);
  }

  /** What the walk lists after its cursor, and its rows. */
  ghost predicate Left(w: Walk, cursor: Option<ConceptKey>, limit: nat, page: seq<Concept>) {
    var list := ListAfter(w.st, w.q, Entry(w.q.types.Some?, cursor));
    (forall k :: k in list ==> k.2 in w.st.concepts) && page == Slice(Rows(w.st.concepts, list), 0, limit)
  }

  lemma LeftRows(w: Walk, cursor: Option<ConceptKey>, limit: nat, n: nat, page: seq<Concept>)
    requires Standing(w, cursor, n) && Left(w, cursor, limit, page)
    ensures n <= |w.rows| == |w.list| && page == Slice(w.rows, n, limit)
  {
    hide Slice, ListAfter;
    RowsDrop(w.st.concepts, w.list, n);
    SliceDrop(w.rows, n, limit);
  }

  /** A full page leaves the walk standing after it. */
  lemma PageGiven(w: Walk, cursor: Option<ConceptKey>, limit: nat, n: nat, page: seq<Concept>, next: Option<ConceptKey>)
    requires Standing(w, cursor, n) && WellFormed(w.st) && limit >= 1 && Left(w, cursor, limit, page)
    requires next == if 0 < limit == |page| then Some(SortKey(page[limit - 1], page[limit - 1].id)) else None
    ensures page == Slice(w.rows, n, limit) && (next.Some? <==> |page| == limit)
    ensures next.Some? ==> n + limit <= |w.list| && Standing(w, next, n + limit)
  {
    hide WellFormed, ListAfter, Rows;
    LeftRows(w, cursor, limit, n, page);
    PageResumes(w.st, w.q, cursor, w.list, limit, n, page, next);
  }

  function Joined<T>(pages: seq<seq<T>>): seq<T> {
    if pages == [] then [] else Joined(pages[..|pages| - 1]) + pages[|pages| - 1]
  }

  lemma NextMultiple(n: nat, limit: nat)
    ensures (n + 1) * limit == n * limit + limit
  {
  }

  lemma RowsDrop(concepts: map<nat, Concept>, keys: seq<ConceptKey>, n: nat)
    requires n <= |keys| && forall k :: k in keys ==> k.2 in concepts
    ensures (forall k :: k in keys[n..] ==> k in keys) && Rows(concepts, keys[n..]) == Rows(concepts, keys)[n..]
  {
  }

  lemma SliceDrop<T>(s: seq<T>, n: nat, limit: nat)
    requires n <= |s|
    ensures Slice(s[n..], 0, limit) == Slice(s, n, limit)
    ensures s[..n] + Slice(s, n, limit) == s[..n + |Slice(s, n, limit)|]
    ensures |Slice(s, n, limit)| < limit ==> n + |Slice(s, n, limit)| == |s|
  {
  }

  /** The cursor taken from a row enters the list at that row's key. */
  lemma CursorKey(st: State, q: Query, n: nat)
    requires WellFormed(st) && 0 < n <= |ListAll(st, q)| && ListAll(st, q)[n - 1].2 in st.concepts
    ensures var c := st.concepts[ListAll(st, q)[n - 1].2];
      KeyFor(q.types.Some?, SortKey(c, c.id)) == ListAll(st, q)[n - 1]
  {
    ConceptKeyOrder();
    AscendingMembers(ConceptKeyLt, MatchingAfter(st, q, None));
    var k := ListAll(st, q)[n - 1];
    assert k in ListAll(st, q) && k in MatchingAfter(st, q, None);
    MatchingMember(st, q, k);
  }
}
