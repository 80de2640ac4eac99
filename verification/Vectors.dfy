/** The dense vector table (crates/index/src/vector.rs): rows kept contiguous by
    swap-remove, and a scan split over threads. */
module Vectors {
  import opened Collections
  import opened TopK

  /** The rows laid end to end. */
  function Flatten(rows: seq<seq<real>>): seq<real> {
    if rows == [] then [] else Flatten(rows[..|rows| - 1]) + rows[|rows| - 1]
  }

  predicate AllOf(rows: seq<seq<real>>, dim: nat) { forall i :: 0 <= i < |rows| ==> |rows[i]| == dim }

  lemma Offsets(i: nat, n: nat, dim: nat)
    requires i < n
    ensures (i + 1) * dim == i * dim + dim && (i + 1) * dim <= n * dim
  {
    Monotone(i + 1, n, dim);
  }

  lemma Monotone(a: nat, b: nat, dim: nat)
    requires a <= b
    ensures a * dim <= b * dim
  {
  }

  lemma {:induction false} FlattenLength(rows: seq<seq<real>>, dim: nat)
    requires AllOf(rows, dim)
    ensures |Flatten(rows)| == |rows| * dim
  {
    if rows != [] {
      FlattenLength(rows[..|rows| - 1], dim);
      Offsets(|rows| - 1, |rows|, dim);
    }
  }

  /** Row `i` is the slice from `i * dim`. */
  lemma {:induction false} FlattenAt(rows: seq<seq<real>>, dim: nat, i: nat)
    requires AllOf(rows, dim) && i < |rows|
    ensures i * dim <= (i + 1) * dim <= |Flatten(rows)| && Flatten(rows)[i * dim..(i + 1) * dim] == rows[i]
  {
    var l := |rows| - 1;
    FlattenLength(rows, dim);
    FlattenLength(rows[..l], dim);
    Offsets(i, |rows|, dim);
    if i < l {
      FlattenAt(rows[..l], dim, i);
      assert Flatten(rows)[i * dim..(i + 1) * dim] == Flatten(rows[..l])[i * dim..(i + 1) * dim];
    }
  }

  /** Copying over a slice replaces one row. */
  lemma CopyLast(rows: seq<seq<real>>, dim: nat, v: seq<real>)
    requires AllOf(rows, dim) && rows != [] && |v| == dim
    ensures (|rows| - 1) * dim <= |rows| * dim == |Flatten(rows)|
    ensures var i := |rows| - 1;
      Flatten(rows)[..i * dim] + v + Flatten(rows)[|rows| * dim..] == Flatten(rows[i := v])
  {
    var l := |rows| - 1;
    FlattenLength(rows, dim);
    FlattenLength(rows[..l], dim);
    Offsets(l, |rows|, dim);
    assert rows[l := v][..l] == rows[..l];
    assert Flatten(rows)[..l * dim] == Flatten(rows[..l]) && Flatten(rows)[|rows| * dim..] == [];
    assert Flatten(rows[..l]) + v + [] == Flatten(rows[..l]) + v;
  }

  lemma CopyBefore(rows: seq<seq<real>>, i: nat, v: seq<real>, from: nat, to: nat)
    requires i < |rows| - 1
    requires var head := Flatten(rows[..|rows| - 1]);
      from <= to <= |head| && head[..from] + v + head[to..] == Flatten(rows[..|rows| - 1][i := v])
    ensures to <= |Flatten(rows)| && Flatten(rows)[..from] + v + Flatten(rows)[to..] == Flatten(rows[i := v])
  {
    var l := |rows| - 1;
    var head := Flatten(rows[..l]);
    assert rows[i := v][..l] == rows[..l][i := v] && rows[i := v][l] == rows[l];
    AppendSlices(head, rows[l], from, to);
    ConcatAssoc(head[..from] + v, head[to..], rows[l]);
  }

  lemma AppendSlices(head: seq<real>, last: seq<real>, from: nat, to: nat)
    requires from <= to <= |head|
    ensures (head + last)[..from] == head[..from] && (head + last)[to..] == head[to..] + last
  {
  }

  lemma {:induction false} FlattenCopy(rows: seq<seq<real>>, dim: nat, i: nat, v: seq<real>)
    requires AllOf(rows, dim) && i < |rows| && |v| == dim
    ensures i * dim <= (i + 1) * dim <= |Flatten(rows)|
    ensures Flatten(rows)[..i * dim] + v + Flatten(rows)[(i + 1) * dim..] == Flatten(rows[i := v])
  {
    FlattenLength(rows, dim);
    Offsets(i, |rows|, dim);
    if i < |rows| - 1 {
      FlattenCopy(rows[..|rows| - 1], dim, i, v);
      CopyBefore(rows, i, v, i * dim, (i + 1) * dim);
    } else {
      CopyLast(rows, dim, v);
    }
  }

  lemma FlattenPop(rows: seq<seq<real>>, dim: nat)
    requires AllOf(rows, dim) && rows != []
    ensures (|rows| - 1) * dim <= |Flatten(rows)| && Flatten(rows)[..(|rows| - 1) * dim] == Flatten(rows[..|rows| - 1])
  {
    FlattenLength(rows[..|rows| - 1], dim);
    FlattenLength(rows, dim);
  }

  lemma FlattenPush(rows: seq<seq<real>>, v: seq<real>)
    ensures Flatten(rows + [v]) == Flatten(rows) + v
  {
    assert (rows + [v])[..|rows|] == rows;
  }

  /** `cosine` of two normalised vectors: their dot product. */
  function Dot(a: seq<real>, b: seq<real>): real
    requires |a| == |b|
  {
    if a == [] then 0.0 else Dot(a[..|a| - 1], b[..|b| - 1]) + a[|a| - 1] * b[|b| - 1]
  }

  /** The vector that is 1 at place `i` and 0 elsewhere. */
  function Axis(n: nat, i: nat): seq<real> { seq(n, k => if k == i then 1.0 else 0.0) }

  function Combined(b: seq<real>, k: real, c: seq<real>): seq<real>
    requires |b| == |c|
  {
    seq(|b|, i requires 0 <= i < |b| => b[i] + k * c[i])
  }

  /** The score is linear in the row, and the row that is an axis scores the
      query's value on it: so it is the dot product. */
  lemma {:induction false} DotIsLinear(a: seq<real>, b: seq<real>, k: real, c: seq<real>)
    requires |a| == |b| == |c|
    ensures Dot(a, Combined(b, k, c)) == Dot(a, b) + k * Dot(a, c)
  {
    if a != [] {
      var l := |a| - 1;
      DotIsLinear(a[..l], b[..l], k, c[..l]);
      CombinedFront(b, k, c);
      Spread(a[l], b[l], k, c[l], Dot(a[..l], c[..l]));
    }
  }

  lemma CombinedFront(b: seq<real>, k: real, c: seq<real>)
    requires |b| == |c| && b != []
    ensures Combined(b, k, c)[..|b| - 1] == Combined(b[..|b| - 1], k, c[..|b| - 1])
  {
    var l := |b| - 1;
    var x, y := Combined(b, k, c), Combined(b[..l], k, c[..l]);
    forall i | 0 <= i < l ensures x[i] == y[i] { assert x[i] == b[i] + k * c[i] == b[..l][i] + k * c[..l][i]; }
  }

  lemma Spread(x: real, y: real, k: real, z: real, d: real)
    ensures x * (y + k * z) == x * y + k * (x * z) && k * (d + x * z) == k * d + k * (x * z)
  {
  }

  lemma {:induction false} DotOfAxis(a: seq<real>, i: nat)
    ensures Dot(a, Axis(|a|, i)) == if i < |a| then a[i] else 0.0
  {
    if a != [] {
      var l := |a| - 1;
      DotOfAxis(a[..l], i);
      assert Axis(|a|, i)[..l] == Axis(l, i);
    }
  }

  function HitsOf(q: seq<real>, ids: seq<nat>, rows: seq<seq<real>>): seq<Hit>
    requires |ids| == |rows| && AllOf(rows, |q|)
  {
    seq(|ids|, i requires 0 <= i < |ids| => (ids[i], Dot(q, rows[i])))
  }

  // ---------- positions ----------

  /** `pos` is the inverse of `ids`. */
  ghost predicate Positions(ids: seq<nat>, pos: map<nat, nat>) {
    && (forall i :: 0 <= i < |ids| ==> ids[i] in pos && pos[ids[i]] == i)
    && (forall id :: id in pos ==> pos[id] < |ids| && ids[pos[id]] == id)
  }

  function TableOf(pos: map<nat, nat>, rows: seq<seq<real>>): map<nat, seq<real>>
    requires forall id :: id in pos ==> pos[id] < |rows|
  {
    map id | id in pos :: rows[pos[id]]
  }

  lemma PushPositions(ids: seq<nat>, pos: map<nat, nat>, rows: seq<seq<real>>, id: nat, v: seq<real>)
    requires Positions(ids, pos) && id !in pos && |rows| == |ids|
    ensures Positions(ids + [id], pos[id := |ids|])
    ensures TableOf(pos[id := |ids|], rows + [v]) == TableOf(pos, rows)[id := v]
  {
  }

  lemma CopyPositions(ids: seq<nat>, pos: map<nat, nat>, rows: seq<seq<real>>, id: nat, v: seq<real>)
    requires Positions(ids, pos) && id in pos && |rows| == |ids|
    ensures TableOf(pos, rows[pos[id] := v]) == TableOf(pos, rows)[id := v]
  {
    forall x | x in pos && x != id ensures pos[x] != pos[id] { assert ids[pos[x]] == x; }
  }

  /** The last row moves into the gap and its id learns its new position. */
  function MovedIds(ids: seq<nat>, i: nat): seq<nat>
    requires i < |ids|
  {
    ids[i := ids[|ids| - 1]][..|ids| - 1]
  }

  function MovedPos(ids: seq<nat>, pos: map<nat, nat>, i: nat): map<nat, nat>
    requires i < |ids|
  {
    var left := pos - {ids[i]};
    if i == |ids| - 1 then left else left[ids[|ids| - 1] := i]
  }

  lemma MovedPositions(ids: seq<nat>, pos: map<nat, nat>, i: nat)
    requires Positions(ids, pos) && i < |ids|
    ensures Positions(MovedIds(ids, i), MovedPos(ids, pos, i))
  {
    var last := |ids| - 1;
    forall k | 0 <= k < last ensures MovedIds(ids, i)[k] in MovedPos(ids, pos, i) && MovedPos(ids, pos, i)[MovedIds(ids, i)[k]] == k {
      assert pos[ids[k]] == k && pos[ids[last]] == last && pos[ids[i]] == i;
    }
  }

  lemma MovedTable(ids: seq<nat>, pos: map<nat, nat>, rows: seq<seq<real>>, i: nat)
    requires Positions(ids, pos) && i < |ids| && |rows| == |ids|
    requires Positions(MovedIds(ids, i), MovedPos(ids, pos, i))
    ensures TableOf(MovedPos(ids, pos, i), rows[i := rows[|rows| - 1]][..|rows| - 1]) == TableOf(pos, rows) - {ids[i]}
  {
    var last := |ids| - 1;
    var after, next := rows[i := rows[last]][..last], MovedPos(ids, pos, i);
    forall id | id in next ensures after[next[id]] == rows[pos[id]] {
      assert ids[pos[id]] == id && pos[ids[last]] == last && pos[ids[i]] == i;
      if id != ids[last] { assert next[id] == pos[id] && pos[id] != i; }
    }
  }

  /** Copy the last row down to the gap. */
  function CopyDown(data: seq<real>, lo: nat, hi: nat, end: nat): seq<real>
    requires lo <= hi <= |data| && end <= |data|
  {
    data[..lo] + data[end..] + data[hi..]
  }

  lemma MovedData(rows: seq<seq<real>>, dim: nat, i: nat, lo: nat, hi: nat, end: nat)
    requires AllOf(rows, dim) && i < |rows| && lo == i * dim && hi == (i + 1) * dim && end == (|rows| - 1) * dim
    ensures var last, data := |rows| - 1, Flatten(rows);
      && lo <= hi <= |data| && end <= |data| && end <= |CopyDown(data, lo, hi, end)|
      && (if i == last then data else CopyDown(data, lo, hi, end))[..end] == Flatten(rows[i := rows[last]][..last])
  {
    var last := |rows| - 1;
    FlattenAt(rows, dim, last);
    FlattenAt(rows, dim, i);
    FlattenLength(rows, dim);
    Offsets(last, |rows|, dim);
    FlattenCopy(rows, dim, i, rows[last]);
    FlattenPop(rows[i := rows[last]], dim);
    FlattenPop(rows, dim);
    if i == last { assert rows[i := rows[last]] == rows; }
  }

  // ---------- the table ----------

  /** What a swap-remove of row `i` leaves of the ids, positions and table. */
  lemma RemovedRow(ids: seq<nat>, pos: map<nat, nat>, rows: seq<seq<real>>, dim: nat, i: nat)
    requires Positions(ids, pos) && AllOf(rows, dim) && |rows| == |ids| && i < |ids|
    ensures var after := rows[i := rows[|ids| - 1]][..|ids| - 1];
      && AllOf(after, dim) && Positions(MovedIds(ids, i), MovedPos(ids, pos, i))
      && TableOf(MovedPos(ids, pos, i), after) == TableOf(pos, rows) - {ids[i]}
  {
    MovedPositions(ids, pos, i);
    MovedTable(ids, pos, rows, i);
  }

  lemma CopiedRow(ids: seq<nat>, pos: map<nat, nat>, rows: seq<seq<real>>, dim: nat, id: nat, v: seq<real>)
    requires Positions(ids, pos) && AllOf(rows, dim) && |rows| == |ids| && id in pos && |v| == dim
    ensures pos[id] < |ids|
    ensures var i, data := pos[id], Flatten(rows);
      && i * dim <= (i + 1) * dim <= |data| && AllOf(rows[i := v], dim)
      && data[..i * dim] + v + data[(i + 1) * dim..] == Flatten(rows[i := v])
      && TableOf(pos, rows[i := v]) == TableOf(pos, rows)[id := v]
  {
    CopyPositions(ids, pos, rows, id, v);
    FlattenCopy(rows, dim, pos[id], v);
  }

  lemma PushedRow(ids: seq<nat>, pos: map<nat, nat>, rows: seq<seq<real>>, dim: nat, id: nat, v: seq<real>)
    requires Positions(ids, pos) && AllOf(rows, dim) && |rows| == |ids| && id !in pos && |v| == dim
    ensures Positions(ids + [id], pos[id := |ids|]) && AllOf(rows + [v], dim) && Flatten(rows) + v == Flatten(rows + [v])
    ensures TableOf(pos[id := |ids|], rows + [v]) == TableOf(pos, rows)[id := v]
  {
    PushPositions(ids, pos, rows, id, v);
    FlattenPush(rows, v);
  }

  lemma UnknownRow(pos: map<nat, nat>, rows: seq<seq<real>>, ids: seq<nat>, id: nat)
    requires Positions(ids, pos) && |rows| == |ids| && id !in pos
    ensures TableOf(pos, rows) - {id} == TableOf(pos, rows)
  {
  }

  lemma KnownRow(ids: seq<nat>, pos: map<nat, nat>, id: nat)
    requires Positions(ids, pos) && id in pos
    ensures pos[id] < |ids| && ids[pos[id]] == id
  {
  }

  class Rows {
    const dim: nat
    var ids: seq<nat>
    var data: seq<real>
    var pos: map<nat, nat>
    /** The rows that `data` holds. */
    ghost var rows: seq<seq<real>>

    ghost predicate Valid()
      reads this
    {
      |rows| == |ids| && AllOf(rows, dim) && data == Flatten(rows) && Positions(ids, pos)
    }

    /** What the table says, whatever the order of its rows. */
    ghost function Table(): map<nat, seq<real>>
      reads this
      requires Valid()
    {
      TableOf(pos, rows)
    }

    constructor (dim: nat)
      ensures Valid() && this.dim == dim && Table() == map[] && fresh(this)
    {
      this.dim := dim;
      ids, data, pos, rows := [], [], map[], [];
    }

    function Row(i: nat): (r: seq<real>)
      reads this
      requires Valid() && i < |ids|
      ensures r == rows[i] && |r| == dim
    {
      FlattenAt(rows, dim, i);
      data[i * dim..(i + 1) * dim]
    }

    /** A row of another length would shift every row after it. */
    method Upsert(id: nat, v: seq<real>)
      requires Valid() && |v| == dim
      modifies this
      ensures Valid() && Table() == old(Table())[id := v]
    {
      hide Flatten, AllOf, Positions, TableOf;
      if id in pos {
        CopiedRow(ids, pos, rows, dim, id, v);
        var i := pos[id];
        data := data[..i * dim] + v + data[(i + 1) * dim..];
        rows := rows[i := v];
      } else {
        PushedRow(ids, pos, rows, dim, id, v);
        pos := pos[id := |ids|];
        ids := ids + [id];
        data := data + v;
        rows := rows + [v];
      }
    }

    /** Swap-remove; an unknown id is left alone. */
    method Remove(id: nat)
      requires Valid()
      modifies this
      ensures Valid() && Table() == old(Table()) - {id}
    {
      hide Flatten, AllOf, Positions, TableOf, CopyDown;
      if id !in pos {
        UnknownRow(pos, rows, ids, id);
        return;
      }
      KnownRow(ids, pos, id);
      var i := pos[id];
      var last := |ids| - 1;
      RemovedRow(ids, pos, rows, dim, i);
      var lo, hi, end := i * dim, (i + 1) * dim, last * dim;
      MovedData(rows, dim, i, lo, hi, end);
      rows := rows[i := rows[last]][..last];
      if i != last {
        data := CopyDown(data, lo, hi, end);
        pos, ids := (pos - {id})[ids[last] := i], ids[i := ids[last]];
      } else {
        pos := pos - {id};
      }
      ids, data := ids[..last], data[..end];
    }

    /** The best `limit` rows of a range; a range past the end is empty. */
    method Scan(q: seq<real>, from: nat, to: nat, limit: nat) returns (hits: seq<Hit>)
      requires Valid() && |q| == dim && to <= |ids|
      ensures from <= to ==> Scores(hits) == Best(Scores(HitsOf(q, ids, rows))[from..to], limit)
      ensures from > to ==> hits == []
      ensures from <= to ==> multiset(hits) <= multiset(HitsOf(q, ids, rows)[from..to])
    {
      if from > to { return []; }
      var scored: seq<Hit> := [];
      for i := from to to
        invariant scored == HitsOf(q, ids, rows)[from..i]
      {
        scored := scored + [(ids[i], Dot(q, Row(i)))];
      }
      hits := TopHits(scored, limit);
      ghost var all := HitsOf(q, ids, rows);
      assert Scores(scored) == Scores(all)[from..to];
    }

    /** Each thread keeps the head of its own range; the heads are merged. The
        hits are rows, each at most once and with its own score, and the scores
        are those of one scan over all rows, for any number of threads. */
    method Search(q: seq<real>, limit: nat, threads: nat) returns (hits: seq<Hit>)
      requires Valid() && |q| == dim && threads >= 1
      ensures Scores(hits) == Best(Scores(HitsOf(q, ids, rows)), limit)
      ensures multiset(hits) <= multiset(HitsOf(q, ids, rows)) && DistinctRows(hits)
    {
      var n := |ids|;
      ghost var all := Scores(HitsOf(q, ids, rows));
      if n == 0 || limit == 0 {
        RankedOk(all);
        return [];
      }
      if threads == 1 {
        hits := Scan(q, 0, n, limit);
        assert all[0..n] == all && HitsOf(q, ids, rows)[0..n] == HitsOf(q, ids, rows);
        OnceEach(q, ids, pos, rows, hits);
        return;
      }
      var chunk := (n + threads - 1) / threads;
      EnoughChunks(n, threads, chunk);
      var heads;
      ghost var parts;
      heads, parts := ScanHeads(q, limit, threads, chunk);
      SplitScan(parts, limit);
      hits := TopHits(heads, limit);
      OnceEach(q, ids, pos, rows, hits);
    }

    method ScanHeads(q: seq<real>, limit: nat, threads: nat, chunk: nat) returns (heads: seq<Hit>, ghost parts: seq<seq<real>>)
      requires Valid() && |q| == dim && threads * chunk >= |ids|
      ensures Joined(parts) == Scores(HitsOf(q, ids, rows)) && Scores(heads) == Joined(Heads(parts, limit))
      ensures multiset(heads) <= multiset(HitsOf(q, ids, rows))
    {
      hide Flatten, AllOf, Positions, Best, Dot;
      heads, parts := [], [];
      ghost var hits := HitsOf(q, ids, rows);
      ghost var all := Scores(hits);
      var from := 0;
      for t := 0 to threads
        invariant from == t * chunk && Joined(parts) == all[..Smaller(from, |ids|)] && Scores(heads) == Joined(Heads(parts, limit))
        invariant multiset(heads) <= multiset(hits[..Smaller(from, |ids|)])
      {
        NextChunk(t, chunk);
        var to := Smaller(from + chunk, |ids|);
        var head := Scan(q, from, to, limit);
        ghost var part := if from <= to then all[from..to] else [];
        PartAdded(all, parts, part, heads, head, from, to, limit);
        HeadsWithin(hits, heads, head, from, to);
        parts := parts + [part];
        heads := heads + head;
        from := from + chunk;
      }
      assert all[..|ids|] == all && hits[..|ids|] == hits;
    }
  }

  /** No row is among the hits twice. */
  predicate DistinctRows(hits: seq<Hit>) { forall i, j :: 0 <= i < j < |hits| ==> hits[i].0 != hits[j].0 }

  lemma OnceEach(q: seq<real>, ids: seq<nat>, pos: map<nat, nat>, rows: seq<seq<real>>, hits: seq<Hit>)
    requires Positions(ids, pos) && |rows| == |ids| && AllOf(rows, |q|) && multiset(hits) <= multiset(HitsOf(q, ids, rows))
    ensures DistinctRows(hits)
  {
    var all := HitsOf(q, ids, rows);
    forall i, j | 0 <= i < j < |all| ensures all[i].0 != all[j].0 { assert pos[ids[i]] == i && pos[ids[j]] == j; }
    WithinOnce(all, hits);
    forall i, j | 0 <= i < j < |hits| ensures hits[i].0 != hits[j].0 {
      assert hits[i] in all && hits[j] in all;
      var k :| 0 <= k < |all| && all[k] == hits[i];
      var l :| 0 <= l < |all| && all[l] == hits[j];
    }
  }

  lemma HeadsWithin(hits: seq<Hit>, heads: seq<Hit>, head: seq<Hit>, from: nat, to: nat)
    requires to == Smaller(to, |hits|) && multiset(heads) <= multiset(hits[..Smaller(from, |hits|)])
    requires if from <= to then multiset(head) <= multiset(hits[from..to]) else head == [] && to == |hits|
    ensures multiset(heads + head) <= multiset(hits[..to])
  {
    if from <= to {
      assert hits[..to] == hits[..from] + hits[from..to];
    } else {
      assert heads + head == heads;
    }
  }

  /** One more range scanned. */
  lemma PartAdded(all: seq<real>, parts: seq<seq<real>>, part: seq<real>, heads: seq<Hit>, head: seq<Hit>, from: nat, to: nat, limit: nat)
    requires to <= |all| && Joined(parts) == all[..Smaller(from, |all|)] && Scores(heads) == Joined(Heads(parts, limit))
    requires if from <= to then part == all[from..to] && Scores(head) == Best(part, limit) else part == [] && head == [] && to == |all|
    ensures Joined(parts + [part]) == all[..to]
    ensures Scores(heads + head) == Joined(Heads(parts + [part], limit))
  {
    RankedOk(part);
    JoinedSnoc(parts, part);
    HeadsSnoc(parts, part, limit);
    JoinedSnoc(Heads(parts, limit), Best(part, limit));
    ScoresConcat(heads, head);
  }

  function Smaller(a: nat, b: nat): nat { if a <= b then a else b }

  lemma NextChunk(t: nat, chunk: nat)
    ensures (t + 1) * chunk == t * chunk + chunk
  {
  }

  lemma EnoughChunks(n: nat, threads: nat, chunk: nat)
    requires threads >= 1 && chunk == (n + threads - 1) / threads
    ensures threads * chunk >= n
  {
  }

  lemma ScoresConcat(a: seq<Hit>, b: seq<Hit>)
    ensures Scores(a + b) == Scores(a) + Scores(b)
  {
  }

  lemma JoinedSnoc(parts: seq<seq<real>>, part: seq<real>)
    ensures Joined(parts + [part]) == Joined(parts) + part
  {
    assert (parts + [part])[..|parts|] == parts;
  }

  lemma HeadsSnoc(parts: seq<seq<real>>, part: seq<real>, n: nat)
    ensures Heads(parts + [part], n) == Heads(parts, n) + [Best(part, n)]
  {
  }

  // ---------- against a fresh build ----------

  datatype RowOp = PutRow(id: nat, v: seq<real>) | DropRow(id: nat)

  /** The live documents after some operations. */
  function Documents(start: map<nat, seq<real>>, ops: seq<RowOp>): map<nat, seq<real>> {
    if ops == [] then start else
    var before := Documents(start, ops[..|ops| - 1]);
    match ops[|ops| - 1]
    case PutRow(id, v) => before[id := v]
    case DropRow(id) => before - {id}
  }

  method Perform(r: Rows, ops: seq<RowOp>)
    requires r.Valid() && forall op :: op in ops && op.PutRow? ==> |op.v| == r.dim
    modifies r
    ensures r.Valid() && r.Table() == Documents(old(r.Table()), ops)
  {
    for i := 0 to |ops|
      invariant r.Valid() && r.Table() == Documents(old(r.Table()), ops[..i])
    {
      assert ops[..i + 1][..i] == ops[..i];
      assert ops[i] in ops;
      match ops[i]
      case PutRow(id, v) => r.Upsert(id, v);
      case DropRow(id) => r.Remove(id);
    }
    assert ops[..|ops|] == ops;
  }

  /** Each live document scores once. */
  lemma HitsByTable(q: seq<real>, ids: seq<nat>, pos: map<nat, nat>, rows: seq<seq<real>>, h: Hit)
    requires |ids| == |rows| && AllOf(rows, |q|) && Positions(ids, pos)
    ensures multiset(HitsOf(q, ids, rows))[h] ==
      if h.0 in pos && h.1 == Dot(q, rows[pos[h.0]]) then 1 else 0
  {
    var hits := HitsOf(q, ids, rows);
    forall i, j | 0 <= i < j < |hits| ensures hits[i] != hits[j] { assert pos[ids[i]] == i && pos[ids[j]] == j; }
    OccursOnce(hits, h);
    if h in hits {
      var i :| 0 <= i < |hits| && hits[i] == h;
      assert pos[ids[i]] == i;
    } else if h.0 in pos {
      assert hits[pos[h.0]] == (h.0, Dot(q, rows[pos[h.0]]));
    }
  }

  /** Whatever the history, a search gives the score sequence that a fresh
      build over the same live documents gives. */
  lemma SameScores(q: seq<real>, idsA: seq<nat>, posA: map<nat, nat>, rowsA: seq<seq<real>>,
                   idsB: seq<nat>, posB: map<nat, nat>, rowsB: seq<seq<real>>, limit: nat)
    requires |idsA| == |rowsA| && AllOf(rowsA, |q|) && Positions(idsA, posA)
    requires |idsB| == |rowsB| && AllOf(rowsB, |q|) && Positions(idsB, posB)
    requires TableOf(posA, rowsA) == TableOf(posB, rowsB)
    ensures Best(Scores(HitsOf(q, idsA, rowsA)), limit) == Best(Scores(HitsOf(q, idsB, rowsB)), limit)
  {
    var a, b := HitsOf(q, idsA, rowsA), HitsOf(q, idsB, rowsB);
    forall h: Hit ensures multiset(a)[h] == multiset(b)[h] {
      HitsByTable(q, idsA, posA, rowsA, h);
      HitsByTable(q, idsB, posB, rowsB, h);
      assert h.0 in posA <==> h.0 in TableOf(posA, rowsA);
      assert h.0 in posB <==> h.0 in TableOf(posB, rowsB);
    }
    assert multiset(a) == multiset(b);
    ScoresMultiset(a, b);
    RankedByContents(Scores(a), Scores(b));
  }

  method HistoryForgotten(r: Rows, rebuilt: Rows, q: seq<real>, limit: nat, threads: nat) returns (a: seq<Hit>, b: seq<Hit>)
    requires r.Valid() && rebuilt.Valid() && r.dim == rebuilt.dim == |q| && r.Table() == rebuilt.Table() && threads >= 1
    ensures Scores(a) == Scores(b)
  {
    a := r.Search(q, limit, threads);
    b := rebuilt.Search(q, limit, 1);
    SameScores(q, r.ids, r.pos, r.rows, rebuilt.ids, rebuilt.pos, rebuilt.rows, limit);
  }
}
