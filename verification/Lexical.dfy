/** The interned inverted index (crates/index/src/lexical.rs). After any inserts,
    replacements and removals its postings are those of the live documents, so
    a search answers as a fresh build would. Weights are abstract. */
module Lexical {

  /** `(document, term frequency)`. */
  type Posting = (nat, nat)

  datatype Doc = Doc(tf: map<string, nat>, total: nat)

  datatype Inner = Inner(
    terms: map<string, nat>, postings: seq<seq<Posting>>, docLen: map<nat, nat>, docTerms: map<nat, seq<nat>>, nDocs: nat)

  // ---------- exactness ----------

  ghost predicate PostingsOk(docs: map<nat, Doc>, name: string, p: seq<Posting>) {
    && (forall i, j :: 0 <= i < j < |p| ==> p[i].0 != p[j].0)
    && (forall id, n :: (id, n) in p <==> id in docs && name in docs[id].tf && docs[id].tf[name] == n)
  }

  /** `names` inverts the interning. */
  ghost predicate Interned(x: Inner, names: seq<string>) {
    && |names| == |x.postings|
    && (forall t :: 0 <= t < |names| ==> names[t] in x.terms && x.terms[names[t]] == t)
    && (forall s :: s in x.terms ==> x.terms[s] < |names| && names[x.terms[s]] == s)
  }

  ghost predicate TermsOf(x: Inner, names: seq<string>, doc: Doc, own: seq<nat>) {
    && (forall t :: t in own ==> t < |names| && names[t] in doc.tf)
    && (forall s :: s in doc.tf ==> s in x.terms && x.terms[s] in own)
  }

  ghost predicate PostingsExact(x: Inner, names: seq<string>, docs: map<nat, Doc>)
    requires |names| == |x.postings|
  {
    forall t :: 0 <= t < |names| ==> PostingsOk(docs, names[t], x.postings[t])
  }

  predicate Lengths(docLen: map<nat, nat>, docs: map<nat, Doc>) {
    docLen.Keys == docs.Keys && forall id :: id in docs ==> docLen[id] == docs[id].total
  }

  ghost predicate TermLists(x: Inner, names: seq<string>, docs: map<nat, Doc>) {
    x.docTerms.Keys == docs.Keys && forall id :: id in docs ==> TermsOf(x, names, docs[id], x.docTerms[id])
  }

  ghost predicate DocsOk(x: Inner, names: seq<string>, docs: map<nat, Doc>) {
    Lengths(x.docLen, docs) && TermLists(x, names, docs) && x.nDocs == |docs|
  }

  ghost predicate Exact(x: Inner, names: seq<string>, docs: map<nat, Doc>) {
    Interned(x, names) && PostingsExact(x, names, docs) && DocsOk(x, names, docs)
  }

  // ---------- unposting ----------

  function Retain(p: seq<Posting>, id: nat): seq<Posting> {
    if p == [] then [] else
    var l := |p| - 1;
    if p[l].0 == id then Retain(p[..l], id) else Retain(p[..l], id) + [p[l]]
  }

  lemma {:induction false} RetainOk(p: seq<Posting>, id: nat)
    ensures forall k :: k in Retain(p, id) <==> k in p && k.0 != id
    ensures (forall i, j :: 0 <= i < j < |p| ==> p[i].0 != p[j].0) ==>
            (forall i, j :: 0 <= i < j < |Retain(p, id)| ==> Retain(p, id)[i].0 != Retain(p, id)[j].0)
  {
    if p != [] {
      var l := |p| - 1;
      RetainOk(p[..l], id);
      assert p == p[..l] + [p[l]];
    }
  }

  lemma RetainPostings(docs: map<nat, Doc>, name: string, p: seq<Posting>, id: nat)
    requires PostingsOk(docs, name, p)
    ensures PostingsOk(docs - {id}, name, Retain(p, id))
  {
    RetainOk(p, id);
    forall d, n ensures (d, n) in Retain(p, id) <==> d in docs - {id} && name in docs[d].tf && docs[d].tf[name] == n {
      assert (d, n) in p <==> d in docs && name in docs[d].tf && docs[d].tf[name] == n;
    }
  }

  /** A list of a term that the document lacks needs no scrubbing. */
  lemma OtherPostings(docs: map<nat, Doc>, name: string, p: seq<Posting>, id: nat)
    requires PostingsOk(docs, name, p) && (id in docs ==> name !in docs[id].tf)
    ensures PostingsOk(docs - {id}, name, p)
  {
    forall d, n ensures (d, n) in p <==> d in docs - {id} && name in docs[d].tf && docs[d].tf[name] == n {
      assert (d, n) in p <==> d in docs && name in docs[d].tf && docs[d].tf[name] == n;
    }
  }

  /** The lists of the first `i` terms are scrubbed, the others untouched. */
  ghost predicate Scrubbed(x: Inner, names: seq<string>, docs: map<nat, Doc>, id: nat, own: seq<nat>, i: nat, postings: seq<seq<Posting>>)
    requires |names| == |x.postings| && i <= |own|
  {
    && |postings| == |x.postings|
    && (forall t :: 0 <= t < |names| && t in own[..i] ==> PostingsOk(docs - {id}, names[t], postings[t]))
    && (forall t :: 0 <= t < |names| && t !in own[..i] ==> postings[t] == x.postings[t])
  }

  lemma ScrubOne(x: Inner, names: seq<string>, docs: map<nat, Doc>, id: nat, own: seq<nat>, i: nat, postings: seq<seq<Posting>>)
    requires |names| == |x.postings| && PostingsExact(x, names, docs) && i < |own| && own[i] < |names|
    requires Scrubbed(x, names, docs, id, own, i, postings)
    ensures Scrubbed(x, names, docs, id, own, i + 1, postings[own[i] := Retain(postings[own[i]], id)])
  {
    var t := own[i];
    assert own[..i + 1] == own[..i] + [t];
    if t in own[..i] {
      RetainPostings(docs - {id}, names[t], postings[t], id);
      assert docs - {id} - {id} == docs - {id};
    } else {
      RetainPostings(docs, names[t], postings[t], id);
    }
  }

  lemma ScrubbedAll(x: Inner, names: seq<string>, docs: map<nat, Doc>, id: nat, own: seq<nat>, postings: seq<seq<Posting>>)
    requires |names| == |x.postings| && PostingsExact(x, names, docs) && Scrubbed(x, names, docs, id, own, |own|, postings)
    requires id in docs ==> forall t :: 0 <= t < |names| && names[t] in docs[id].tf ==> t in own
    ensures forall t :: 0 <= t < |names| ==> PostingsOk(docs - {id}, names[t], postings[t])
  {
    assert own[..|own|] == own;
    forall t | 0 <= t < |names| ensures PostingsOk(docs - {id}, names[t], postings[t]) {
      if t !in own { OtherPostings(docs, names[t], postings[t], id); }
    }
  }

  /** Scrub the document from its own lists only. */
  method Unpost(x: Inner, id: nat, ghost names: seq<string>, ghost docs: map<nat, Doc>) returns (r: Inner)
    requires Interned(x, names) && PostingsExact(x, names, docs)
    requires id in docs ==> id in x.docTerms && TermsOf(x, names, docs[id], x.docTerms[id])
    requires id !in docs ==> id !in x.docTerms
    ensures r == x.(postings := r.postings, docTerms := x.docTerms - {id})
    ensures Interned(r, names) && PostingsExact(r, names, docs - {id})
  {
    var own := if id in x.docTerms then x.docTerms[id] else [];
    var postings := x.postings;
    for i := 0 to |own|
      invariant Scrubbed(x, names, docs, id, own, i, postings)
    {
      assert own[i] in own;
      ScrubOne(x, names, docs, id, own, i, postings);
      postings := postings[own[i] := Retain(postings[own[i]], id)];
    }
    ScrubbedAll(x, names, docs, id, own, postings);
    r := x.(postings := postings, docTerms := x.docTerms - {id});
  }

  // ---------- interning ----------

  /** A known term keeps its number; a new one gets an empty list. */
  method Intern(x: Inner, term: string, ghost names: seq<string>, ghost docs: map<nat, Doc>)
    returns (r: Inner, t: nat, ghost after: seq<string>)
    requires Interned(x, names) && PostingsExact(x, names, docs)
    requires term !in x.terms ==> forall id :: id in docs ==> term !in docs[id].tf
    ensures r == x.(terms := r.terms, postings := r.postings)
    ensures Interned(r, after) && PostingsExact(r, after, docs) && names <= after
    ensures t < |after| && after[t] == term && x.terms.Keys <= r.terms.Keys
    ensures forall s :: s in x.terms ==> r.terms[s] == x.terms[s]
  {
    if term in x.terms { return x, x.terms[term], names; }
    t := |x.postings|;
    after := names + [term];
    r := x.(terms := x.terms[term := t], postings := x.postings + [[]]);
    forall k | 0 <= k < |after| ensures PostingsOk(docs, after[k], r.postings[k]) {
      if k < |names| { assert PostingsOk(docs, names[k], x.postings[k]); }
    }
  }

  function WithTerm(doc: Doc, term: string, n: nat): Doc { doc.(tf := doc.tf[term := n]) }

  lemma PushPosting(docs: map<nat, Doc>, name: string, p: seq<Posting>, id: nat, term: string, n: nat)
    requires id in docs && term !in docs[id].tf && PostingsOk(docs, name, p)
    ensures PostingsOk(docs[id := WithTerm(docs[id], term, n)], name, if name == term then p + [(id, n)] else p)
  {
    var next := docs[id := WithTerm(docs[id], term, n)];
    var q := if name == term then p + [(id, n)] else p;
    forall d, m ensures (d, m) in q <==> d in next && name in next[d].tf && next[d].tf[name] == m {
      assert (d, m) in p <==> d in docs && name in docs[d].tf && docs[d].tf[name] == m;
    }
    if name == term {
      forall i | 0 <= i < |p| ensures p[i].0 != id { assert p[i] == (p[i].0, p[i].1) && p[i] in p; }
    }
  }

  /** One `(term, count)` of a document being inserted. */
  method Post(x: Inner, id: nat, term: string, n: nat, ghost names: seq<string>, ghost docs: map<nat, Doc>)
    returns (r: Inner, t: nat, ghost after: seq<string>)
    requires Interned(x, names) && PostingsExact(x, names, docs) && id in docs && term !in docs[id].tf
    requires term !in x.terms ==> forall d :: d in docs ==> term !in docs[d].tf
    ensures r == x.(terms := r.terms, postings := r.postings)
    ensures Interned(r, after) && PostingsExact(r, after, docs[id := WithTerm(docs[id], term, n)]) && names <= after
    ensures t < |after| && after[t] == term && x.terms.Keys <= r.terms.Keys
    ensures forall s :: s in x.terms ==> r.terms[s] == x.terms[s]
  {
    r, t, after := Intern(x, term, names, docs);
    ghost var next := docs[id := WithTerm(docs[id], term, n)];
    forall k | 0 <= k < |after| ensures PostingsOk(next, after[k], if k == t then r.postings[k] + [(id, n)] else r.postings[k]) {
      PushPosting(docs, after[k], r.postings[k], id, term, n);
    }
    r := r.(postings := r.postings[t := r.postings[t] + [(id, n)]]);
  }

  // ---------- inserting a document ----------

  type TermCount = (string, nat)

  function Frequencies(tf: seq<TermCount>): map<string, nat> {
    if tf == [] then map[] else Frequencies(tf[..|tf| - 1])[tf[|tf| - 1].0 := tf[|tf| - 1].1]
  }

  predicate DistinctTerms(tf: seq<TermCount>) { forall i, j :: 0 <= i < j < |tf| ==> tf[i].0 != tf[j].0 }

  lemma {:induction false} FrequencyKeys(tf: seq<TermCount>)
    ensures forall s :: s in Frequencies(tf) <==> exists i :: 0 <= i < |tf| && tf[i].0 == s
  {
    if tf != [] {
      var l := |tf| - 1;
      FrequencyKeys(tf[..l]);
      forall s | exists i :: 0 <= i < |tf| && tf[i].0 == s ensures s in Frequencies(tf) {
        var i :| 0 <= i < |tf| && tf[i].0 == s;
        if i < l { assert tf[..l][i].0 == s; }
      }
      forall s | s in Frequencies(tf) ensures exists i :: 0 <= i < |tf| && tf[i].0 == s {
        if s != tf[l].0 {
          assert s in Frequencies(tf[..l]);
          var i :| 0 <= i < l && tf[..l][i].0 == s;
          assert tf[i].0 == s;
        }
      }
    }
  }

  lemma EmptyDocument(x: Inner, names: seq<string>, docs: map<nat, Doc>, id: nat, total: nat)
    requires |names| == |x.postings| && PostingsExact(x, names, docs) && id !in docs
    ensures PostingsExact(x, names, docs[id := Doc(map[], total)])
  {
    var next := docs[id := Doc(map[], total)];
    forall t | 0 <= t < |names| ensures PostingsOk(next, names[t], x.postings[t]) {
      forall d, n ensures (d, n) in x.postings[t] <==> d in next && names[t] in next[d].tf && next[d].tf[names[t]] == n {
        assert (d, n) in x.postings[t] <==> d in docs && names[t] in docs[d].tf && docs[d].tf[names[t]] == n;
      }
    }
  }

  /** The term lists of the documents stay right while the vocabulary grows. */
  ghost predicate OthersOk(x: Inner, names: seq<string>, others: map<nat, Doc>) {
    forall d :: d in others ==> d in x.docTerms && TermsOf(x, names, others[d], x.docTerms[d])
  }

  lemma VocabularyGrows(x: Inner, r: Inner, names: seq<string>, after: seq<string>, doc: Doc, own: seq<nat>)
    requires TermsOf(x, names, doc, own) && names <= after && forall s :: s in x.terms ==> s in r.terms && r.terms[s] == x.terms[s]
    ensures TermsOf(r, after, doc, own)
  {
    forall t | t in own ensures t < |after| && after[t] in doc.tf { assert after[t] == names[t]; }
  }

  /** Midway through the terms of `id`; `own` are their numbers. */
  ghost predicate Inserting(x: Inner, names: seq<string>, others: map<nat, Doc>, id: nat, doc: Doc, own: seq<nat>) {
    && id !in others && Interned(x, names) && PostingsExact(x, names, others[id := doc])
    && OthersOk(x, names, others) && TermsOf(x, names, doc, own)
  }

  method InsertTerm(x: Inner, id: nat, entry: TermCount, own: seq<nat>, ghost names: seq<string>, ghost others: map<nat, Doc>, ghost doc: Doc)
    returns (r: Inner, more: seq<nat>, ghost after: seq<string>)
    requires Inserting(x, names, others, id, doc, own) && entry.0 !in doc.tf
    ensures Inserting(r, after, others, id, WithTerm(doc, entry.0, entry.1), more)
    ensures r == x.(terms := r.terms, postings := r.postings)
  {
    ghost var docs := others[id := doc];
    forall d | d in docs && entry.0 !in x.terms ensures entry.0 !in docs[d].tf {
      if d != id { assert TermsOf(x, names, others[d], x.docTerms[d]); }
    }
    var t;
    r, t, after := Post(x, id, entry.0, entry.1, names, docs);
    assert docs[id := WithTerm(docs[id], entry.0, entry.1)] == others[id := WithTerm(doc, entry.0, entry.1)];
    more := own + [t];
    VocabularyGrows(x, r, names, after, doc, own);
    forall d | d in others ensures TermsOf(r, after, others[d], r.docTerms[d]) { VocabularyGrows(x, r, names, after, others[d], x.docTerms[d]); }
  }

  method InsertTerms(x: Inner, id: nat, tf: seq<TermCount>, total: nat, ghost names: seq<string>, ghost others: map<nat, Doc>)
    returns (r: Inner, own: seq<nat>, ghost after: seq<string>)
    requires Inserting(x, names, others, id, Doc(map[], total), []) && DistinctTerms(tf)
    ensures Inserting(r, after, others, id, Doc(Frequencies(tf), total), own)
    ensures r == x.(terms := r.terms, postings := r.postings)
  {
    r, own, after := x, [], names;
    for i := 0 to |tf|
      invariant Inserting(r, after, others, id, Doc(Frequencies(tf[..i]), total), own)
      invariant r == x.(terms := r.terms, postings := r.postings)
    {
      FrequencyKeys(tf[..i]);
      assert tf[..i + 1][..i] == tf[..i];
      r, own, after := InsertTerm(r, id, tf[i], own, after, others, Doc(Frequencies(tf[..i]), total));
    }
    assert tf[..|tf|] == tf;
  }

  // ---------- the index ----------

  class LexicalIndex {
    var inner: Inner
    ghost var names: seq<string>
    /** The live documents. */
    ghost var docs: map<nat, Doc>

    ghost predicate Valid()
      reads this
    {
      Exact(inner, names, docs)
    }

    constructor ()
      ensures Valid() && docs == map[]
    {
      inner, names, docs := Inner(map[], [], map[], map[], 0), [], map[];
    }

    /** Insert a document, or replace the one of that id. */
    method Insert(id: nat, tf: seq<TermCount>, total: nat)
      requires Valid() && DistinctTerms(tf)
      modifies this
      ensures Valid() && docs == old(docs)[id := Doc(Frequencies(tf), total)]
    {
      var x := Displace(inner, id, total, names, docs);
      InsertStarts(inner, x, names, docs, id, total);
      var r, own;
      ghost var after;
      r, own, after := InsertTerms(x, id, tf, total, names, docs - {id});
      InsertEnds(inner, x, r, names, after, docs, id, Doc(Frequencies(tf), total), own);
      inner := r.(docTerms := r.docTerms[id := own]);
      names := after;
      docs := docs[id := Doc(Frequencies(tf), total)];
    }

    /** Forget a document; an unknown id is left alone. */
    method Remove(id: nat)
      requires Valid()
      modifies this
      ensures Valid() && docs == old(docs) - {id}
    {
      hide Exact;
      inner := Forget(inner, id, names, docs);
      docs := docs - {id};
    }
  }

  /** The counts without a document. */
  function Uncounted(x: Inner, id: nat): Inner {
    if id in x.docLen && x.nDocs > 0 then x.(nDocs := x.nDocs - 1, docLen := x.docLen - {id}) else x
  }

  lemma RemoveStarts(x: Inner, names: seq<string>, docs: map<nat, Doc>, id: nat)
    requires Exact(x, names, docs)
    ensures var y := Uncounted(x, id);
      && Interned(y, names) && PostingsExact(y, names, docs)
      && (id in docs ==> id in y.docTerms && TermsOf(y, names, docs[id], y.docTerms[id])) && (id !in docs ==> id !in y.docTerms)
      && y.terms == x.terms && y.docTerms == x.docTerms && y.docLen == x.docLen - {id}
      && y.nDocs == x.nDocs - (if id in docs then 1 else 0)
  {
    assert id in docs ==> |docs.Keys| > 0 && |docs| == |docs.Keys|;
    assert id !in x.docLen ==> x.docLen - {id} == x.docLen;
    if id in docs { assert TermsOf(x, names, docs[id], x.docTerms[id]); }
  }

  method Forget(x: Inner, id: nat, ghost names: seq<string>, ghost docs: map<nat, Doc>) returns (r: Inner)
    requires Exact(x, names, docs)
    ensures Exact(r, names, docs - {id})
  {
    RemoveStarts(x, names, docs, id);
    hide Exact, Interned, PostingsExact, TermsOf;
    r := Uncounted(x, id);
    r := Unpost(r, id, names, docs);
    RemoveEnds(x, r, names, docs, id);
  }

  lemma InsertStarts(before: Inner, x: Inner, names: seq<string>, docs: map<nat, Doc>, id: nat, total: nat)
    requires Exact(before, names, docs) && Interned(x, names) && PostingsExact(x, names, docs - {id})
    requires x.terms == before.terms && x.docTerms - {id} == before.docTerms - {id}
    ensures Inserting(x, names, docs - {id}, id, Doc(map[], total), [])
  {
    EmptyDocument(x, names, docs - {id}, id, total);
    forall d | d in docs - {id} ensures d in x.docTerms && TermsOf(x, names, docs[d], x.docTerms[d]) {
      assert TermsOf(before, names, docs[d], before.docTerms[d]);
      assert d in x.docTerms - {id} && (x.docTerms - {id})[d] == (before.docTerms - {id})[d];
    }
  }

  /** Count the document, or take the old version out of the postings. */
  method Displace(inner: Inner, id: nat, total: nat, ghost names: seq<string>, ghost docs: map<nat, Doc>) returns (x: Inner)
    requires Exact(inner, names, docs)
    ensures Interned(x, names) && PostingsExact(x, names, docs - {id})
    ensures x.terms == inner.terms && x.docTerms - {id} == inner.docTerms - {id}
    ensures x.docLen == inner.docLen[id := total] && x.nDocs == inner.nDocs + (if id in docs then 0 else 1)
  {
    x := inner;
    if id !in x.docLen {
      x := x.(nDocs := x.nDocs + 1);
      assert docs - {id} == docs;
    } else {
      x := Unpost(x, id, names, docs);
    }
    x := x.(docLen := x.docLen[id := total]);
  }

  lemma CountWith(docs: map<nat, Doc>, id: nat, doc: Doc)
    ensures |docs[id := doc]| == |docs| + (if id in docs then 0 else 1)
    ensures (docs - {id})[id := doc] == docs[id := doc]
  {
    assert |docs[id := doc]| == |docs[id := doc].Keys| && |docs| == |docs.Keys|;
    if id in docs { assert docs[id := doc].Keys == docs.Keys; } else { assert docs[id := doc].Keys == docs.Keys + {id}; }
  }

  lemma SameKeys<V>(a: map<nat, V>, b: map<nat, V>, id: nat)
    requires a - {id} == b - {id}
    ensures a.Keys + {id} == b.Keys + {id}
  {
    forall k | k != id ensures k in a <==> k in b { assert k in a - {id} <==> k in b - {id}; }
  }

  lemma TermsEnd(r: Inner, after: seq<string>, docs: map<nat, Doc>, id: nat, doc: Doc, own: seq<nat>)
    requires OthersOk(r, after, docs - {id}) && TermsOf(r, after, doc, own) && r.docTerms.Keys + {id} == docs.Keys + {id}
    ensures TermLists(r.(docTerms := r.docTerms[id := own]), after, docs[id := doc])
  {
    var next, all := r.(docTerms := r.docTerms[id := own]), docs[id := doc];
    assert next.docTerms.Keys == r.docTerms.Keys + {id} && all.Keys == docs.Keys + {id};
    forall d | d in all ensures TermsOf(next, after, all[d], next.docTerms[d]) {
      if d != id { assert d in docs - {id} && TermsOf(r, after, docs[d], r.docTerms[d]); }
    }
  }

  lemma LengthsEnd(docLen: map<nat, nat>, docs: map<nat, Doc>, id: nat, doc: Doc)
    requires Lengths(docLen, docs)
    ensures Lengths(docLen[id := doc.total], docs[id := doc])
  {
  }

  lemma PostingsEnd(r: Inner, after: seq<string>, docs: map<nat, Doc>, id: nat, doc: Doc, own: seq<nat>)
    requires Interned(r, after) && PostingsExact(r, after, (docs - {id})[id := doc])
    ensures Interned(r.(docTerms := r.docTerms[id := own]), after)
    ensures PostingsExact(r.(docTerms := r.docTerms[id := own]), after, docs[id := doc])
  {
    CountWith(docs, id, doc);
  }

  lemma InsertEnds(before: Inner, x: Inner, r: Inner, names: seq<string>, after: seq<string>, docs: map<nat, Doc>, id: nat, doc: Doc, own: seq<nat>)
    requires Exact(before, names, docs) && Inserting(r, after, docs - {id}, id, doc, own)
    requires r == x.(terms := r.terms, postings := r.postings) && x.docTerms - {id} == before.docTerms - {id}
    requires x.docLen == before.docLen[id := doc.total] && x.nDocs == before.nDocs + (if id in docs then 0 else 1)
    ensures Exact(r.(docTerms := r.docTerms[id := own]), after, docs[id := doc])
  {
    CountWith(docs, id, doc);
    SameKeys(x.docTerms, before.docTerms, id);
    TermsEnd(r, after, docs, id, doc, own);
    LengthsEnd(before.docLen, docs, id, doc);
    PostingsEnd(r, after, docs, id, doc, own);
  }

  lemma RemoveEnds(before: Inner, x: Inner, names: seq<string>, docs: map<nat, Doc>, id: nat)
    requires Exact(before, names, docs) && Interned(x, names) && PostingsExact(x, names, docs - {id})
    requires x.terms == before.terms && x.docTerms == before.docTerms - {id} && x.docLen == before.docLen - {id}
    requires x.nDocs == before.nDocs - (if id in docs then 1 else 0)
    ensures Exact(x, names, docs - {id})
  {
    assert |docs - {id}| == |(docs - {id}).Keys| && |docs| == |docs.Keys|;
    assert (docs - {id}).Keys == docs.Keys - {id};
    forall d | d in docs - {id} ensures TermsOf(x, names, docs[d], x.docTerms[d]) {
      assert TermsOf(before, names, docs[d], before.docTerms[d]);
    }
  }
}
