/** Sequences without repetition, and the ascending enumeration of a finite
    set that models the iteration order of a `BTreeSet`. */
module Collections {

  datatype Option<+T> = None | Some(value: T)

  predicate NoDup<T(==)>(s: seq<T>) {
    forall i, j :: 0 <= i < j < |s| ==> s[i] != s[j]
  }

  function Elems<T(==)>(s: seq<T>): set<T> { set x | x in s }

  /** `retain(|x| !gone.contains(x))` on a list. */
  function Minus<T(==)>(s: seq<T>, gone: set<T>): seq<T> {
    if s == [] then [] else
    var l := |s| - 1;
    if s[l] in gone then Minus(s[..l], gone) else Minus(s[..l], gone) + [s[l]]
  }

  lemma {:induction false} MinusMembers<T(!new)>(s: seq<T>, gone: set<T>)
    ensures forall x :: x in Minus(s, gone) <==> x in s && x !in gone
  {
    if s != [] {
      var l := |s| - 1;
      MinusMembers(s[..l], gone);
      assert s == s[..l] + [s[l]];
    }
  }

  lemma MinusAppend<T(!new)>(s: seq<T>, x: T, gone: set<T>)
    ensures Minus(s + [x], gone) == if x in gone then Minus(s, gone) else Minus(s, gone) + [x]
  {
    assert (s + [x])[..|s|] == s;
  }

  lemma {:induction false} MinusNoDup<T(!new)>(s: seq<T>, gone: set<T>)
    requires NoDup(s)
    ensures NoDup(Minus(s, gone))
  {
    if s != [] {
      var l := |s| - 1;
      MinusNoDup(s[..l], gone);
      MinusMembers(s[..l], gone);
      assert s[l] !in s[..l];
    }
  }

  lemma {:induction false} MinusTwice<T(!new)>(s: seq<T>, a: set<T>, b: set<T>)
    ensures Minus(Minus(s, a), b) == Minus(s, a + b)
  {
    if s != [] {
      var l := |s| - 1;
      MinusTwice(s[..l], a, b);
      if s[l] !in a { MinusAppend(Minus(s[..l], a), s[l], b); }
    }
  }

  lemma {:induction false} MinusNothing<T(!new)>(s: seq<T>, gone: set<T>)
    requires forall x :: x in gone ==> x !in s
    ensures Minus(s, gone) == s
  {
    if s != [] {
      var l := |s| - 1;
      MinusNothing(s[..l], gone);
      assert s[..l] + [s[l]] == s;
    }
  }

  /** A list without repetition drawn from `t` is no longer than `t` is large. */
  lemma {:induction false} NoDupBound<T(!new)>(s: seq<T>, t: set<T>)
    requires NoDup(s) && forall x :: x in s ==> x in t
    ensures |s| <= |t|
  {
    if s != [] {
      var l := s[|s| - 1];
      NoDupBound(s[..|s| - 1], t - {l});
    }
  }

  lemma JoinNoDup<T(!new)>(a: seq<T>, b: seq<T>)
    requires NoDup(a) && NoDup(b) && Elems(a) !! Elems(b)
    ensures NoDup(a + b) && Elems(a + b) == Elems(a) + Elems(b)
  {
    forall i, j | 0 <= i < j < |a + b| ensures (a + b)[i] != (a + b)[j] {
      if i < |a| && j >= |a| { assert a[i] in Elems(a) && b[j - |a|] in Elems(b); }
    }
  }

  lemma ElemsSnoc<T(!new)>(s: seq<T>, x: T)
    ensures Elems(s + [x]) == Elems(s) + {x}
  {
  }

  lemma ConcatAssoc<T>(a: seq<T>, b: seq<T>, c: seq<T>)
    ensures a + b + c == a + (b + c)
  {
  }

  lemma SliceOfSlice<T>(s: seq<T>, a: nat, b: nat, i: nat, j: nat)
    requires a <= b <= |s| && i <= j <= b - a
    ensures s[a..b][i..j] == s[a + i..a + j]
  {
    var l, r := s[a..b][i..j], s[a + i..a + j];
    assert forall k :: 0 <= k < |l| ==> l[k] == s[a..b][i + k] == s[a + i + k] == r[k];
    assert |l| == |r|;
  }

  // ---------- ascending enumeration ----------

  ghost predicate StrictOrder<T(!new)>(lt: (T, T) -> bool) {
    && (forall x :: !lt(x, x))
    && (forall x, y, z :: lt(x, y) && lt(y, z) ==> lt(x, z))
    && (forall x, y :: x != y ==> lt(x, y) || lt(y, x))
  }

  ghost predicate Sorted<T(!new)>(lt: (T, T) -> bool, s: seq<T>) {
    forall i, j :: 0 <= i < j < |s| ==> lt(s[i], s[j])
  }

  ghost predicate IsLeast<T(!new)>(lt: (T, T) -> bool, s: set<T>, m: T) {
    m in s && forall x :: x in s && x != m ==> lt(m, x)
  }

  lemma {:induction false} LeastExists<T(!new)>(lt: (T, T) -> bool, s: set<T>) returns (m: T)
    requires StrictOrder(lt) && s != {}
    ensures IsLeast(lt, s, m)
    decreases s
  {
    var x :| x in s;
    if s == {x} {
      m := x;
    } else {
      var rest := s - {x};
      var n := LeastExists(lt, rest);
      m := if lt(n, x) then n else x;
      forall y | y in s && y != m ensures lt(m, y) {
        if y != x && y != n { assert y in rest; }
      }
    }
  }

  /** The elements of `s` in ascending order, each once. */
  ghost function Ascending<T(!new)>(lt: (T, T) -> bool, s: set<T>): seq<T>
    requires StrictOrder(lt)
    decreases s
  {
    if s == {} then [] else
    assert exists m :: IsLeast(lt, s, m) by { var m := LeastExists(lt, s); }
    var m :| IsLeast(lt, s, m);
    [m] + Ascending(lt, s - {m})
  }

  lemma {:induction false} AscendingMembers<T(!new)>(lt: (T, T) -> bool, s: set<T>)
    requires StrictOrder(lt)
    ensures forall x :: x in Ascending(lt, s) <==> x in s
    ensures |Ascending(lt, s)| == |s|
    decreases s
  {
    if s != {} {
      var r := Ascending(lt, s);
      assert IsLeast(lt, s, r[0]) && r == [r[0]] + Ascending(lt, s - {r[0]});
      AscendingMembers(lt, s - {r[0]});
    }
  }

  lemma {:induction false} AscendingSorted<T(!new)>(lt: (T, T) -> bool, s: set<T>)
    requires StrictOrder(lt)
    ensures Sorted(lt, Ascending(lt, s))
    decreases s
  {
    if s != {} {
      var r := Ascending(lt, s);
      assert IsLeast(lt, s, r[0]);
      AscendingSorted(lt, s - {r[0]});
      assert r[1..] == Ascending(lt, s - {r[0]});
      AscendingMembers(lt, s - {r[0]});
      forall i, j | 0 <= i < j < |r| ensures lt(r[i], r[j]) {
        assert r[j] == r[1..][j - 1] && r[j] in s - {r[0]};
        if i > 0 { assert r[i] == r[1..][i - 1]; }
      }
    }
  }

  /** A sorted list is the ascending enumeration of its own elements, so two
      sorted lists with the same elements are equal. */
  lemma {:induction false} SortedUnique<T(!new)>(lt: (T, T) -> bool, a: seq<T>, b: seq<T>)
    requires StrictOrder(lt) && Sorted(lt, a) && Sorted(lt, b)
    requires forall x :: x in a <==> x in b
    ensures a == b
  {
    assert a != [] ==> a[0] in b;
    assert b != [] ==> b[0] in a;
    if a != [] {
      assert a[0] == b[0];
      forall x ensures x in a[1..] <==> x in b[1..] {
        assert a == [a[0]] + a[1..] && b == [b[0]] + b[1..];
        assert forall y :: y in a[1..] ==> lt(a[0], y);
        assert forall y :: y in b[1..] ==> lt(b[0], y);
        assert x in a[1..] ==> x in b && x != b[0];
        assert x in b[1..] ==> x in a && x != a[0];
      }
      SortedUnique(lt, a[1..], b[1..]);
    }
  }

  lemma AscendingUnique<T(!new)>(lt: (T, T) -> bool, s: set<T>, a: seq<T>)
    requires StrictOrder(lt) && Sorted(lt, a)
    requires forall x :: x in a <==> x in s
    ensures a == Ascending(lt, s)
  {
    AscendingSorted(lt, s);
    AscendingMembers(lt, s);
    SortedUnique(lt, a, Ascending(lt, s));
  }

  /** In a sorted list the elements after position `n - 1` are those above it. */
  lemma SortedTail<T(!new)>(lt: (T, T) -> bool, s: seq<T>, n: nat, x: T)
    requires StrictOrder(lt) && Sorted(lt, s) && 0 < n <= |s|
    ensures x in s[n..] <==> x in s && lt(s[n - 1], x)
  {
    if x in s {
      var i :| 0 <= i < |s| && s[i] == x;
      if i < n - 1 { assert lt(s[i], s[n - 1]); }
      if i >= n { assert s[n..][i - n] == x; }
      assert lt(s[n - 1], x) <==> i >= n;
      SortedNoDup(lt, s);
      if x in s[n..] { var j :| 0 <= j < |s[n..]| && s[n..][j] == x; assert s[n + j] == x; }
    }
  }

  lemma SortedNoDup<T(!new)>(lt: (T, T) -> bool, a: seq<T>)
    requires StrictOrder(lt) && Sorted(lt, a)
    ensures NoDup(a)
  {
  }

  /** Iterating a `BTreeSet`. */
  method InOrder<T(!new, ==)>(lt: (T, T) -> bool, s: set<T>) returns (r: seq<T>)
    requires StrictOrder(lt)
    ensures r == Ascending(lt, s) && Sorted(lt, r) && |r| == |s|
    ensures forall x :: x in r <==> x in s
  {
    r := [];
    var rest := s;
    while rest != {}
      invariant rest <= s && Sorted(lt, r)
      invariant forall x :: x in r <==> x in s && x !in rest
      invariant forall x, y :: x in r && y in rest ==> lt(x, y)
      decreases rest
    {
      ghost var w := LeastExists(lt, rest);
      var m :| m in rest && forall x :: x in rest && x != m ==> lt(m, x);
      r := r + [m];
      rest := rest - {m};
    }
    AscendingUnique(lt, s, r);
    AscendingMembers(lt, s);
  }
}
