/** Searching the inverted index (crates/index/src/lexical.rs): what a query
    answers depends on the live documents alone, not on the insertions,
    replacements and removals that led to them. */
module LexicalSearch {
  import opened Collections
  import opened TopK
  import opened Lexical

  /** Term frequency, document length, document frequency, documents. */
  type Weight = (nat, nat, nat, nat) -> real

  ghost function Matching(docs: map<nat, Doc>, term: string): set<nat> { set id | id in docs && term in docs[id].tf }

  /** An unknown term, or one in more than half of a large corpus. */
  predicate TooCommon(df: nat, n: nat) { df == 0 || (df > 1000 && df * 2 > n) }

  ghost function TermScores(w: Weight, docs: map<nat, Doc>, term: string): map<nat, real> {
    var m := Matching(docs, term);
    map id | id in m :: w(docs[id].tf[term], docs[id].total, |m|, |docs|)
  }

  function At(a: map<nat, real>, id: nat): real { if id in a then a[id] else 0.0 }

  function Plus(a: map<nat, real>, b: map<nat, real>): map<nat, real> {
    map id | id in a.Keys + b.Keys :: At(a, id) + At(b, id)
  }

  /** The score of each document that a query word found: the sum of the
      weights of its words, a repeated word counting again. */
  ghost function QueryScores(w: Weight, docs: map<nat, Doc>, query: seq<string>): map<nat, real> {
    if query == [] then map[] else
    var rest, term := QueryScores(w, docs, query[..|query| - 1]), query[|query| - 1];
    if TooCommon(|Matching(docs, term)|, |docs|) then rest else Plus(rest, TermScores(w, docs, term))
  }

  // ---------- one posting list ----------

  function WeightOf(w: Weight, docLen: map<nat, nat>, p: Posting, df: nat, n: nat): real {
    w(p.1, if p.0 in docLen then docLen[p.0] else 1, df, n)
  }

  function ListScores(w: Weight, docLen: map<nat, nat>, p: seq<Posting>, df: nat, n: nat): map<nat, real> {
    if p == [] then map[] else
    ListScores(w, docLen, p[..|p| - 1], df, n)[p[|p| - 1].0 := WeightOf(w, docLen, p[|p| - 1], df, n)]
  }

  predicate DistinctIds(p: seq<Posting>) { forall i, j :: 0 <= i < j < |p| ==> p[i].0 != p[j].0 }

  ghost predicate Listed(p: seq<Posting>, id: nat) { exists i :: 0 <= i < |p| && p[i].0 == id }

  lemma ListedSnoc(p: seq<Posting>, l: nat, id: nat)
    requires l + 1 == |p|
    ensures Listed(p, id) <==> Listed(p[..l], id) || id == p[l].0
  {
    if Listed(p[..l], id) { var i :| 0 <= i < l && p[..l][i].0 == id; assert p[i].0 == id; }
    if Listed(p, id) && id != p[l].0 { var i :| 0 <= i < |p| && p[i].0 == id; assert p[..l][i].0 == id; }
  }

  lemma OneMore(m: map<nat, real>, k: nat, v: real)
    requires k !in m
    ensures |m[k := v]| == |m| + 1
  {
    assert m[k := v].Keys == m.Keys + {k};
    assert |m[k := v]| == |m[k := v].Keys| && |m| == |m.Keys|;
  }

  lemma {:induction false} ListScoresKeys(w: Weight, docLen: map<nat, nat>, p: seq<Posting>, df: nat, n: nat)
    requires DistinctIds(p)
    ensures forall id :: id in ListScores(w, docLen, p, df, n) <==> Listed(p, id)
    ensures |ListScores(w, docLen, p, df, n)| == |p|
  {
    if p != [] {
      var l := |p| - 1;
      ListScoresKeys(w, docLen, p[..l], df, n);
      forall id ensures Listed(p, id) <==> Listed(p[..l], id) || id == p[l].0 { ListedSnoc(p, l, id); }
      assert !Listed(p[..l], p[l].0);
      OneMore(ListScores(w, docLen, p[..l], df, n), p[l].0, WeightOf(w, docLen, p[l], df, n));
    }
  }

  lemma {:induction false} ListScoresAt(w: Weight, docLen: map<nat, nat>, p: seq<Posting>, df: nat, n: nat, i: nat)
    requires DistinctIds(p) && i < |p|
    ensures p[i].0 in ListScores(w, docLen, p, df, n)
    ensures ListScores(w, docLen, p, df, n)[p[i].0] == WeightOf(w, docLen, p[i], df, n)
  {
    if i < |p| - 1 {
      ListScoresAt(w, docLen, p[..|p| - 1], df, n, i);
      assert p[i].0 != p[|p| - 1].0;
    }
  }

  lemma AddOne(a: map<nat, real>, b: map<nat, real>, id: nat, v: real)
    requires id !in b
    ensures Plus(a, b[id := v]) == Plus(a, b)[id := At(Plus(a, b), id) + v]
  {
    var l, r := Plus(a, b[id := v]), Plus(a, b)[id := At(Plus(a, b), id) + v];
    assert l.Keys == r.Keys;
    forall d | d in l ensures l[d] == r[d] { if d != id { assert At(b[id := v], d) == At(b, d); } }
  }

  /** The list of an indexed term scores exactly the documents that have it. */
  lemma ListIsTerm(w: Weight, docLen: map<nat, nat>, docs: map<nat, Doc>, term: string, p: seq<Posting>)
    requires PostingsOk(docs, term, p) && Lengths(docLen, docs)
    ensures |p| == |Matching(docs, term)|
    ensures ListScores(w, docLen, p, |p|, |docs|) == TermScores(w, docs, term)
  {
    var m, found := ListScores(w, docLen, p, |p|, |docs|), Matching(docs, term);
    ListScoresKeys(w, docLen, p, |p|, |docs|);
    forall id ensures id in m <==> id in found {
      if id in found {
        var i :| 0 <= i < |p| && p[i] == (id, docs[id].tf[term]);
        assert p[i].0 == id;
      }
      if Listed(p, id) { var i :| 0 <= i < |p| && p[i].0 == id; assert (id, p[i].1) in p; }
    }
    assert m.Keys == found && |m| == |m.Keys|;
    forall id | id in m ensures m[id] == TermScores(w, docs, term)[id] {
      var i :| 0 <= i < |p| && p[i].0 == id;
      ListScoresAt(w, docLen, p, |p|, |docs|, i);
      assert (id, p[i].1) in p;
    }
  }

  /** Add the weights of one posting list to the running scores. */
  method AddPostings(w: Weight, docLen: map<nat, nat>, p: seq<Posting>, n: nat, scores: map<nat, real>) returns (r: map<nat, real>)
    requires DistinctIds(p)
    ensures r == Plus(scores, ListScores(w, docLen, p, |p|, n))
  {
    r := scores;
    assert Plus(scores, map[]) == scores;
    for j := 0 to |p|
      invariant r == Plus(scores, ListScores(w, docLen, p[..j], |p|, n))
    {
      assert p[..j + 1][..j] == p[..j];
      NotYet(w, docLen, p, j, n);
      AddOne(scores, ListScores(w, docLen, p[..j], |p|, n), p[j].0, WeightOf(w, docLen, p[j], |p|, n));
      r := r[p[j].0 := At(r, p[j].0) + WeightOf(w, docLen, p[j], |p|, n)];
    }
    assert p[..|p|] == p;
  }

  lemma NotYet(w: Weight, docLen: map<nat, nat>, p: seq<Posting>, j: nat, n: nat)
    requires DistinctIds(p) && j < |p|
    ensures p[j].0 !in ListScores(w, docLen, p[..j], |p|, n)
  {
    ListScoresKeys(w, docLen, p[..j], |p|, n);
  }

  // ---------- a query ----------

  /** What one query word adds. */
  method AddTerm(x: Inner, w: Weight, term: string, scores: map<nat, real>, ghost names: seq<string>, ghost docs: map<nat, Doc>)
    returns (r: map<nat, real>)
    requires Exact(x, names, docs)
    ensures r == if TooCommon(|Matching(docs, term)|, |docs|) then scores else Plus(scores, TermScores(w, docs, term))
  {
    if term !in x.terms {
      NoMatch(x, names, docs, term);
      return scores;
    }
    var p := x.postings[x.terms[term]];
    assert PostingsOk(docs, names[x.terms[term]], p);
    ListIsTerm(w, x.docLen, docs, term, p);
    if p == [] || (|p| > 1000 && |p| * 2 > x.nDocs) { return scores; }
    r := AddPostings(w, x.docLen, p, x.nDocs, scores);
  }

  lemma NoMatch(x: Inner, names: seq<string>, docs: map<nat, Doc>, term: string)
    requires Exact(x, names, docs) && term !in x.terms
    ensures Matching(docs, term) == {}
  {
    forall id | id in docs ensures term !in docs[id].tf { assert TermsOf(x, names, docs[id], x.docTerms[id]); }
  }

  lemma {:induction false} NoDocuments(w: Weight, docs: map<nat, Doc>, query: seq<string>)
    requires docs == map[]
    ensures QueryScores(w, docs, query) == map[]
  {
    if query != [] {
      NoDocuments(w, docs, query[..|query| - 1]);
      assert Matching(docs, query[|query| - 1]) == {};
    }
  }

  /** Some order of the entries of a map. */
  ghost predicate Entries(m: map<nat, real>, hits: seq<Hit>) {
    && NoDup(hits)
    && (forall h :: h in hits <==> h.0 in m && m[h.0] == h.1)
  }

  method Collect(m: map<nat, real>) returns (hits: seq<Hit>)
    ensures Entries(m, hits)
  {
    hits := [];
    var todo := m.Keys;
    while todo != {}
      invariant todo <= m.Keys && NoDup(hits)
      invariant forall h :: h in hits <==> h.0 in m && h.0 !in todo && m[h.0] == h.1
      decreases |todo|
    {
      var id :| id in todo;
      hits, todo := hits + [(id, m[id])], todo - {id};
    }
  }

  lemma EntriesScores(m: map<nat, real>, a: seq<Hit>, b: seq<Hit>, limit: nat)
    requires Entries(m, a) && Entries(m, b)
    ensures Best(Scores(a), limit) == Best(Scores(b), limit)
  {
    forall h: Hit ensures multiset(a)[h] == multiset(b)[h] {
      OccursOnce(a, h);
      OccursOnce(b, h);
    }
    assert multiset(a) == multiset(b);
    ScoresMultiset(a, b);
    RankedByContents(Scores(a), Scores(b));
  }

  /** `r` lists the `limit` best of the scored documents, each once, with its
      own score, best first. */
  ghost predicate Answers(m: map<nat, real>, limit: nat, r: seq<Hit>) {
    && NoDup(r)
    && (forall h :: h in r ==> h.0 in m && m[h.0] == h.1)
    && (exists all :: Entries(m, all) && Scores(r) == Best(Scores(all), limit))
  }

  /** Ranked search over an index that is exact for `docs`. */
  method Search(index: LexicalIndex, w: Weight, query: seq<string>, limit: nat) returns (r: seq<Hit>)
    requires index.Valid()
    ensures Answers(QueryScores(w, index.docs, query), limit, r)
  {
    var x := index.inner;
    var scores: map<nat, real> := map[];
    if x.nDocs != 0 {
      for i := 0 to |query|
        invariant scores == QueryScores(w, index.docs, query[..i])
      {
        assert query[..i + 1][..i] == query[..i];
        scores := AddTerm(x, w, query[i], scores, index.names, index.docs);
      }
      assert query[..|query|] == query;
    } else {
      assert |index.docs.Keys| == 0;
      NoDocuments(w, index.docs, query);
    }
    var all := Collect(scores);
    r := TopHits(all, limit);
    WithinOnce(all, r);
  }

  /** Two answers to the same query over the same documents have the same
      scores, place by place. */
  lemma AnswersAgree(m: map<nat, real>, limit: nat, a: seq<Hit>, b: seq<Hit>)
    requires Answers(m, limit, a) && Answers(m, limit, b)
    ensures Scores(a) == Scores(b)
  {
    var l :| Entries(m, l) && Scores(a) == Best(Scores(l), limit);
    var r :| Entries(m, r) && Scores(b) == Best(Scores(r), limit);
    EntriesScores(m, l, r, limit);
  }

  /** A long-lived index answers as a fresh build of its live documents does. */
  method HistoryForgotten(index: LexicalIndex, rebuilt: LexicalIndex, w: Weight, query: seq<string>, limit: nat)
    returns (a: seq<Hit>, b: seq<Hit>)
    requires index.Valid() && rebuilt.Valid() && index.docs == rebuilt.docs
    ensures Scores(a) == Scores(b)
  {
    a := Search(index, w, query, limit);
    b := Search(rebuilt, w, query, limit);
    AnswersAgree(QueryScores(w, index.docs, query), limit, a, b);
  }
}
