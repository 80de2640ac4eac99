/** The schema: concept types with single inheritance, storage domains,
    disjointness, and relation types; its validators and the descendants
    cache (crates/graph/src/schema.rs). */
module OntologySchema {
  import opened Collections
  import opened Text
  import opened Errors

  datatype Cardinality = OneToOne | OneToMany | ManyToOne | ManyToMany

  datatype ConceptType = ConceptType(
    name: string, properties: Option<seq<string>>, parent: Option<string>, description: string,
    required: seq<string>, disjointWith: seq<string>, ns: Option<string>)

  datatype RelationType = RelationType(
    name: string, domain: string, range: string, cardinality: Cardinality, symmetric: bool,
    description: string, transitive: bool, inverseOf: Option<string>, functional: bool, detail: bool)
  {
    predicate LimitsOut() { functional || cardinality == OneToOne || cardinality == ManyToOne }
    predicate LimitsIn() { cardinality == OneToOne || cardinality == OneToMany }
  }

  datatype Schema = Schema(conceptTypes: map<string, ConceptType>, relationTypes: map<string, RelationType>)

  const EMPTY_SCHEMA := Schema(map[], map[])
  const DEFAULT_NS := "default"
  const MAX_NS_LEN := 32

  /** Types are registered under their own name. */
  ghost predicate WellKeyed(s: Schema) {
    && (forall k :: k in s.conceptTypes ==> s.conceptTypes[k].name == k)
    && (forall k :: k in s.relationTypes ==> s.relationTypes[k].name == k)
  }

  // ---------- the parent chain ----------

  function ParentOf(s: Schema, t: string): Option<string> {
    if t in s.conceptTypes then s.conceptTypes[t].parent else None
  }

  /** The `n`-th name on the parent chain of `t`; `None` once the chain ended. */
  ghost function AncestorAt(s: Schema, t: string, n: nat): Option<string> {
    if n == 0 then Some(t) else
    match AncestorAt(s, t, n - 1)
    case None => None
    case Some(u) => ParentOf(s, u)
  }

  ghost predicate Inherits(s: Schema, child: string, ancestor: string) {
    exists n: nat :: AncestorAt(s, child, n) == Some(ancestor)
  }

  /** No declared type is its own proper ancestor. */
  ghost predicate Acyclic(s: Schema) {
    forall t, n: nat :: t in s.conceptTypes && n > 0 ==> AncestorAt(s, t, n) != Some(t)
  }

  lemma {:induction false} AncestorCompose(s: Schema, t: string, u: string, i: nat, j: nat)
    requires AncestorAt(s, t, i) == Some(u)
    ensures AncestorAt(s, t, i + j) == AncestorAt(s, u, j)
  {
    if j > 0 { AncestorCompose(s, t, u, i, j - 1); }
  }

  lemma {:induction false} AncestorDefinedBelow(s: Schema, t: string, i: nat, n: nat)
    requires i <= n && AncestorAt(s, t, n).Some?
    ensures AncestorAt(s, t, i).Some?
    ensures i < n ==> AncestorAt(s, t, i).value in s.conceptTypes
    decreases n - i
  {
    if i < n {
      AncestorDefinedBelow(s, t, i + 1, n);
    }
  }

  ghost function Chain(s: Schema, t: string, n: nat): (c: seq<string>)
    requires n > 0 ==> AncestorAt(s, t, n - 1).Some?
    ensures |c| == n
  {
    seq(n, i requires 0 <= i < n => AncestorDefinedBelow(s, t, i, n - 1); AncestorAt(s, t, i).value)
  }

  /** A chain of known types longer than the number of types revisits one. */
  lemma LongChainRepeats(s: Schema, t: string, n: nat) returns (i: nat, j: nat)
    requires n > |s.conceptTypes| && AncestorAt(s, t, n).Some?
    ensures i < j < n && AncestorAt(s, t, i) == AncestorAt(s, t, j) && AncestorAt(s, t, i).Some?
    ensures AncestorAt(s, t, i).value in s.conceptTypes
  {
    AncestorDefinedBelow(s, t, n - 1, n);
    var c := Chain(s, t, n);
    forall k | 0 <= k < n ensures c[k] in s.conceptTypes && AncestorAt(s, t, k) == Some(c[k]) {
      AncestorDefinedBelow(s, t, k, n);
    }
    if NoDup(c) {
      NoDupBound(c, s.conceptTypes.Keys);
      assert false;
    }
    i, j :| 0 <= i < j < n && c[i] == c[j];
  }

  /** Whatever a chain reaches, it reaches within as many hops as there are
      types: the bound on `hops` in the walks loses nothing, cycles included. */
  lemma {:induction false} ReachedSoon(s: Schema, t: string, a: string, n: nat) returns (m: nat)
    requires AncestorAt(s, t, n) == Some(a)
    ensures m <= |s.conceptTypes| && AncestorAt(s, t, m) == Some(a)
    decreases n
  {
    if n <= |s.conceptTypes| {
      m := n;
    } else {
      var i, j := LongChainRepeats(s, t, n);
      var u := AncestorAt(s, t, i).value;
      AncestorCompose(s, t, u, i, n - j);
      AncestorCompose(s, t, u, j, n - j);
      m := ReachedSoon(s, t, a, i + (n - j));
    }
  }

  /** `is_subtype`: the cursor walk up the parent chain, bounded by `hops`. */
  method IsSubtype(s: Schema, child: string, ancestor: string) returns (r: bool)
    ensures r <==> Inherits(s, child, ancestor)
  {
    assert AncestorAt(s, child, 0) == Some(child);
    if child == ancestor { return true; }
    var cursor := child;
    var hops := 0;
    while cursor in s.conceptTypes
      invariant hops <= |s.conceptTypes|
      invariant AncestorAt(s, child, hops) == Some(cursor)
      invariant forall k: nat :: k <= hops ==> AncestorAt(s, child, k) != Some(ancestor)
      decreases |s.conceptTypes| + 1 - hops
    {
      var parent := s.conceptTypes[cursor].parent;
      assert AncestorAt(s, child, hops + 1) == parent;
      if parent == Some(ancestor) { return true; }
      if parent.None? {
        NothingBeyond(s, child, hops + 1);
        return false;
      }
      cursor := parent.value;
      hops := hops + 1;
      if hops > |s.conceptTypes| {
        if n: nat :| AncestorAt(s, child, n) == Some(ancestor) {
          var m := ReachedSoon(s, child, ancestor, n);
          assert false;
        }
        return false;
      }
    }
    assert AncestorAt(s, child, hops + 1) == None;
    NothingBeyond(s, child, hops + 1);
    return false;
  }

  lemma {:induction false} NothingBeyond(s: Schema, t: string, n: nat)
    requires AncestorAt(s, t, n).None?
    ensures forall m: nat :: m >= n ==> AncestorAt(s, t, m).None?
  {
    forall m: nat | m >= n ensures AncestorAt(s, t, m).None? {
      if AncestorAt(s, t, m).Some? { AncestorDefinedBelow(s, t, n, m); }
    }
  }

  ghost predicate Endless(s: Schema, t: string) {
    forall n: nat :: AncestorAt(s, t, n).Some?
  }

  lemma {:induction false} CycleIsEndless(s: Schema, t: string, p: nat, n: nat)
    requires p > 0 && AncestorAt(s, t, p) == Some(t)
    ensures AncestorAt(s, t, n).Some?
    decreases n
  {
    if n >= p {
      AncestorCompose(s, t, t, p, n - p);
      CycleIsEndless(s, t, p, n - p);
    } else {
      AncestorDefinedBelow(s, t, n, p);
    }
  }

  /** `validate_hierarchy`: refused exactly when some type is its own
      ancestor; the type named by the error sits on a chain that never ends. */
  method ValidateHierarchy(s: Schema) returns (r: Result<()>)
    ensures r.Ok? <==> Acyclic(s)
    ensures r.Err? ==> r.error.ParentCycle? && r.error.ctype in s.conceptTypes && Endless(s, r.error.ctype)
  {
    var rest := s.conceptTypes.Keys;
    while rest != {}
      invariant rest <= s.conceptTypes.Keys
      invariant forall t, n: nat :: t in s.conceptTypes && t !in rest && n > 0 ==> AncestorAt(s, t, n) != Some(t)
      decreases rest
    {
      var start :| start in rest;
      rest := rest - {start};
      var cursor := s.conceptTypes[start].parent;
      var hops := 0;
      assert AncestorAt(s, start, 0) == Some(start);
      while cursor.Some?
        invariant hops <= |s.conceptTypes|
        invariant cursor == AncestorAt(s, start, hops + 1)
        invariant forall k: nat :: 0 < k <= hops ==> AncestorAt(s, start, k) != Some(start)
        decreases |s.conceptTypes| + 1 - hops
      {
        var p := cursor.value;
        if p == start {
          forall n: nat ensures AncestorAt(s, start, n).Some? { CycleIsEndless(s, start, hops + 1, n); }
          return Err(ParentCycle(start));
        }
        hops := hops + 1;
        if hops > |s.conceptTypes| {
          TooLongIsEndless(s, start, hops);
          return Err(ParentCycle(start));
        }
        cursor := ParentOf(s, p);
      }
      NothingBeyond(s, start, hops + 1);
    }
    return Ok(());
  }

  lemma TooLongIsEndless(s: Schema, t: string, n: nat)
    requires n > |s.conceptTypes| && AncestorAt(s, t, n).Some?
    ensures Endless(s, t) && !Acyclic(s)
  {
    var i, j := LongChainRepeats(s, t, n);
    var u := AncestorAt(s, t, i).value;
    AncestorCompose(s, t, u, i, j - i);
    assert u in s.conceptTypes && AncestorAt(s, u, j - i) == Some(u);
    forall m: nat ensures AncestorAt(s, t, m).Some? {
      if m <= n {
        AncestorDefinedBelow(s, t, m, n);
      } else {
        CycleIsEndless(s, u, j - i, m - i);
        AncestorCompose(s, t, u, i, m - i);
      }
    }
  }

  // ---------- descendants ----------

  ghost function DescendantSet(s: Schema, a: string): set<string> {
    set c | c in s.conceptTypes && Inherits(s, c, a)
  }

  /** `descendants`: the known subtypes of a known type in name order, and
      nothing for an unknown one. */
  ghost function Descendants(s: Schema, a: string): seq<string> {
    StringOrder();
    if a in s.conceptTypes then Ascending(StringLt, DescendantSet(s, a)) else []
  }

  ghost predicate ChildIndex(s: Schema, children: map<string, seq<string>>) {
    forall p, c :: (p in children && c in children[p]) <==> (c in s.conceptTypes && s.conceptTypes[c].parent == Some(p))
  }

  method BuildChildren(s: Schema) returns (children: map<string, seq<string>>)
    requires WellKeyed(s)
    ensures ChildIndex(s, children)
  {
    children := map[];
    var rest := s.conceptTypes.Keys;
    while rest != {}
      invariant rest <= s.conceptTypes.Keys
      invariant forall p, c :: (p in children && c in children[p]) <==>
        (c in s.conceptTypes && c !in rest && s.conceptTypes[c].parent == Some(p))
      decreases rest
    {
      var t :| t in rest;
      rest := rest - {t};
      var ct := s.conceptTypes[t];
      if ct.parent.Some? {
        var p := ct.parent.value;
        children := children[p := (if p in children then children[p] else []) + [ct.name]];
      }
    }
  }

  /** Every child of a seen type is seen or waits on the stack. */
  ghost predicate ChildrenWaiting(s: Schema, seen: set<string>, stack: seq<string>) {
    forall c :: c in s.conceptTypes && ParentOf(s, c).Some? && ParentOf(s, c).value in seen ==> c in seen || c in stack
  }

  ghost predicate WalkInv(s: Schema, name: string, acc: seq<string>, seen: set<string>, stack: seq<string>) {
    && (forall c :: c in acc <==> c in seen)
    && name in seen && seen <= DescendantSet(s, name)
    && (forall c :: c in stack ==> c in DescendantSet(s, name))
    && ChildrenWaiting(s, seen, stack)
  }

  lemma WalkStarts(s: Schema, children: map<string, seq<string>>, name: string)
    requires ChildIndex(s, children) && name in s.conceptTypes
    ensures WalkInv(s, name, [name], {name}, if name in children then children[name] else [])
  {
    assert AncestorAt(s, name, 0) == Some(name);
    if name in children {
      forall c | c in children[name] ensures c in DescendantSet(s, name) { ChildInherits(s, c, name, name); }
    }
  }

  lemma WalkVisits(s: Schema, children: map<string, seq<string>>, name: string,
                   acc: seq<string>, seen: set<string>, stack: seq<string>, c: string)
    requires ChildIndex(s, children) && WalkInv(s, name, acc, seen, stack + [c])
    ensures c in seen ==> WalkInv(s, name, acc, seen, stack)
    ensures c in DescendantSet(s, name) && c in s.conceptTypes
    ensures WalkInv(s, name, acc + [c], seen + {c}, stack + if c in children then children[c] else [])
  {
    assert c in stack + [c];
    assert forall d :: d in stack ==> d in stack + [c];
    if c in children {
      forall d | d in children[c] ensures d in DescendantSet(s, name) { ChildInherits(s, d, c, name); }
    }
  }

  lemma WalkEnds(s: Schema, name: string, acc: seq<string>, seen: set<string>)
    requires WalkInv(s, name, acc, seen, [])
    ensures forall c :: c in acc <==> c in DescendantSet(s, name)
  {
    forall c | c in DescendantSet(s, name) ensures c in seen { SeenClosed(s, name, seen, c); }
  }

  /** One depth-first walk of `build_descendants_index`. */
  method WalkDescendants(s: Schema, children: map<string, seq<string>>, name: string) returns (acc: seq<string>)
    requires ChildIndex(s, children) && name in s.conceptTypes
    ensures forall c :: c in acc <==> c in DescendantSet(s, name)
  {
    hide WalkInv, DescendantSet, ChildIndex;
    acc := [name];
    var seen := {name};
    var stack := if name in children then children[name] else [];
    WalkStarts(s, children, name);
    while stack != []
      invariant WalkInv(s, name, acc, seen, stack)
      decreases s.conceptTypes.Keys - seen, |stack|
    {
      var c := stack[|stack| - 1];
      ghost var unseen := s.conceptTypes.Keys - seen;
      assert stack == stack[..|stack| - 1] + [c];
      stack := stack[..|stack| - 1];
      WalkVisits(s, children, name, acc, seen, stack, c);
      if c !in seen {
        seen := seen + {c};
        acc := acc + [c];
        assert stack + [] == stack;
        if c in children { stack := stack + children[c]; }
        assert s.conceptTypes.Keys - seen == unseen - {c} && c in unseen;
      }
    }
    WalkEnds(s, name, acc, seen);
  }

  lemma ChildInherits(s: Schema, d: string, c: string, a: string)
    requires d in s.conceptTypes && s.conceptTypes[d].parent == Some(c) && c in DescendantSet(s, a)
    ensures d in DescendantSet(s, a)
  {
    var n: nat :| AncestorAt(s, c, n) == Some(a);
    assert AncestorAt(s, d, 0) == Some(d);
    assert AncestorAt(s, d, 1) == Some(c);
    AncestorCompose(s, d, c, 1, n);
  }

  lemma SeenClosed(s: Schema, a: string, seen: set<string>, c: string)
    requires a in seen && c in DescendantSet(s, a)
    requires ChildrenWaiting(s, seen, [])
    ensures c in seen
  {
    var n: nat :| AncestorAt(s, c, n) == Some(a);
    SeenClosedAt(s, a, seen, c, n);
  }

  lemma {:induction false} SeenClosedAt(s: Schema, a: string, seen: set<string>, c: string, n: nat)
    requires a in seen && c in s.conceptTypes && AncestorAt(s, c, n) == Some(a)
    requires ChildrenWaiting(s, seen, [])
    ensures c in seen
    decreases n
  {
    if n > 0 {
      AncestorDefinedBelow(s, c, 1, n);
      assert AncestorAt(s, c, 0) == Some(c);
      var p := AncestorAt(s, c, 1).value;
      AncestorCompose(s, c, p, 1, n - 1);
      if n > 1 {
        AncestorDefinedBelow(s, c, 1, n);
        SeenClosedAt(s, a, seen, p, n - 1);
      }
    }
  }

  /** The cache of every descendant list, one entry per known type. */
  ghost predicate DescendantsIndex(s: Schema, index: map<string, seq<string>>) {
    index.Keys == s.conceptTypes.Keys && forall a :: a in index ==> index[a] == Descendants(s, a)
  }

  method BuildDescendantsIndex(s: Schema) returns (index: map<string, seq<string>>)
    requires WellKeyed(s)
    ensures DescendantsIndex(s, index)
  {
    var children := BuildChildren(s);
    index := map[];
    var rest := s.conceptTypes.Keys;
    StringOrder();
    while rest != {}
      invariant rest <= s.conceptTypes.Keys && index.Keys == s.conceptTypes.Keys - rest
      invariant forall a :: a in index ==> index[a] == Descendants(s, a)
      decreases rest
    {
      var name :| name in rest;
      rest := rest - {name};
      var acc := WalkDescendants(s, children, name);
      // `sort` and `dedup`
      var sorted := InOrder(StringLt, set c | c in acc);
      assert (set c | c in acc) == DescendantSet(s, name);
      index := index[name := sorted];
    }
  }

  // ---------- storage domains ----------

  ghost predicate DeclaresNsAt(s: Schema, t: string, n: nat) {
    match AncestorAt(s, t, n)
    case None => false
    case Some(u) => u in s.conceptTypes && s.conceptTypes[u].ns.Some?
  }

  ghost predicate NearestNsAt(s: Schema, t: string, n: nat) {
    DeclaresNsAt(s, t, n) && forall k: nat :: k < n ==> !DeclaresNsAt(s, t, k)
  }

  /** Effective storage domain: the nearest declared one up the chain. */
  ghost function NsOf(s: Schema, t: string): string {
    if n: nat :| NearestNsAt(s, t, n) then s.conceptTypes[AncestorAt(s, t, n).value].ns.value else DEFAULT_NS
  }

  lemma NsOfNearest(s: Schema, t: string, n: nat)
    requires NearestNsAt(s, t, n)
    ensures NsOf(s, t) == s.conceptTypes[AncestorAt(s, t, n).value].ns.value
  {
    var m: nat :| NearestNsAt(s, t, m) && NsOf(s, t) == s.conceptTypes[AncestorAt(s, t, m).value].ns.value;
    assert m == n;
  }

  lemma NoNsIsDefault(s: Schema, t: string)
    requires forall n: nat :: !DeclaresNsAt(s, t, n)
    ensures NsOf(s, t) == DEFAULT_NS
  {
  }

  lemma {:induction false} NearestExists(s: Schema, t: string, n: nat) returns (m: nat)
    requires DeclaresNsAt(s, t, n)
    ensures m <= n && NearestNsAt(s, t, m)
    decreases n
  {
    if k: nat :| k < n && DeclaresNsAt(s, t, k) {
      m := NearestExists(s, t, k);
    } else {
      m := n;
    }
  }

  /** A type that declares no domain is in its parent's domain. */
  lemma NsInherited(s: Schema, t: string, p: string)
    requires t in s.conceptTypes && s.conceptTypes[t].ns.None? && s.conceptTypes[t].parent == Some(p)
    ensures NsOf(s, t) == NsOf(s, p)
  {
    assert AncestorAt(s, t, 0) == Some(t) && AncestorAt(s, t, 1) == Some(p);
    forall n: nat ensures AncestorAt(s, t, n + 1) == AncestorAt(s, p, n) { AncestorCompose(s, t, p, 1, n); }
    assert forall n: nat :: DeclaresNsAt(s, t, n + 1) <==> DeclaresNsAt(s, p, n);
    if n: nat :| DeclaresNsAt(s, p, n) {
      var m := NearestExists(s, p, n);
      assert NearestNsAt(s, t, m + 1) by {
        forall k: nat | k < m + 1 ensures !DeclaresNsAt(s, t, k) {
          if k > 0 { assert !DeclaresNsAt(s, p, k - 1); }
        }
      }
      NsOfNearest(s, t, m + 1);
      NsOfNearest(s, p, m);
    } else {
      forall n: nat ensures !DeclaresNsAt(s, t, n) {
        if n > 0 { assert !DeclaresNsAt(s, p, n - 1); }
      }
      NoNsIsDefault(s, t);
      NoNsIsDefault(s, p);
    }
  }

  /** `ns_of_type`: the bounded walk finds the nearest declared domain. */
  method NsOfType(s: Schema, name: string) returns (ns: string)
    ensures ns == NsOf(s, name)
  {
    var cursor := name;
    var hops := 0;
    while cursor in s.conceptTypes
      invariant hops <= |s.conceptTypes| && AncestorAt(s, name, hops) == Some(cursor)
      invariant forall k: nat :: k < hops ==> !DeclaresNsAt(s, name, k)
      decreases |s.conceptTypes| + 1 - hops
    {
      var ct := s.conceptTypes[cursor];
      if ct.ns.Some? {
        NsOfNearest(s, name, hops);
        return ct.ns.value;
      }
      assert AncestorAt(s, name, hops + 1) == ct.parent;
      if ct.parent.None? {
        NothingBeyond(s, name, hops + 1);
        NoNsIsDefault(s, name);
        return DEFAULT_NS;
      }
      cursor := ct.parent.value;
      hops := hops + 1;
      if hops > |s.conceptTypes| {
        forall n: nat ensures !DeclaresNsAt(s, name, n) {
          if DeclaresNsAt(s, name, n) {
            var m := ReachedSoon(s, name, AncestorAt(s, name, n).value, n);
            assert DeclaresNsAt(s, name, m);
          }
        }
        NoNsIsDefault(s, name);
        return DEFAULT_NS;
      }
    }
    assert AncestorAt(s, name, hops + 1) == None;
    NothingBeyond(s, name, hops + 1);
    NoNsIsDefault(s, name);
    return DEFAULT_NS;
  }

  /** `is_valid_ns`: 1 to 32 characters of `[a-z0-9_-]`, not reserved. */
  predicate IsValidNs(ns: string) {
    && ns != "" && |ns| <= MAX_NS_LEN && ns != "meta"
    && forall i :: 0 <= i < |ns| ==> 'a' <= ns[i] <= 'z' || '0' <= ns[i] <= '9' || ns[i] == '_' || ns[i] == '-'
  }

  /** One to thirty-two small letters, digits, underscores and hyphens, by their
      code points, but not the reserved name. */
  lemma ValidNsExactly(ns: string)
    ensures IsValidNs(ns) <==>
      && 1 <= |ns| <= 32 && ns != "meta"
      && forall c :: c in ns ==> 97 <= c as int <= 122 || 48 <= c as int <= 57 || c as int == 95 || c as int == 45
  {
    forall i | IsValidNs(ns) && 0 <= i < |ns| ensures 97 <= ns[i] as int <= 122 || 48 <= ns[i] as int <= 57 || ns[i] as int in {95, 45} { }
    forall i | 0 <= i < |ns| ensures ns[i] in ns { }
  }

  ghost predicate NsAdmissible(s: Schema, t: string)
    requires t in s.conceptTypes
  {
    var ct := s.conceptTypes[t];
    ct.ns.Some? ==>
      && IsValidNs(ct.ns.value)
      && (ct.parent.Some? && ct.parent.value in s.conceptTypes ==> NsOf(s, ct.parent.value) == ct.ns.value)
  }

  ghost predicate NamespacesOk(s: Schema) {
    forall t :: t in s.conceptTypes ==> NsAdmissible(s, t)
  }

  method ValidateNamespaces(s: Schema) returns (r: Result<()>)
    ensures r.Ok? <==> NamespacesOk(s)
  {
    var rest := s.conceptTypes.Keys;
    while rest != {}
      invariant rest <= s.conceptTypes.Keys
      invariant forall t :: t in s.conceptTypes && t !in rest ==> NsAdmissible(s, t)
      decreases rest
    {
      var t :| t in rest;
      rest := rest - {t};
      var ct := s.conceptTypes[t];
      if ct.ns.Some? {
        if !IsValidNs(ct.ns.value) {
          assert !NsAdmissible(s, t);
          return Err(InvalidNamespace(t));
        }
        if ct.parent.Some? && ct.parent.value in s.conceptTypes {
          var parentNs := NsOfType(s, ct.parent.value);
          if parentNs != ct.ns.value {
            assert !NsAdmissible(s, t);
            return Err(NamespaceMismatch(t));
          }
        }
      }
    }
    return Ok(());
  }

  /** Once `validate_namespaces` accepts, a known type shares the storage
      domain of every known type it inherits from. */
  lemma {:induction false} SubtypesShareDomainAt(s: Schema, c: string, a: string, n: nat)
    requires NamespacesOk(s) && a in s.conceptTypes && AncestorAt(s, c, n) == Some(a)
    ensures NsOf(s, c) == NsOf(s, a)
    decreases n
  {
    if n > 0 {
      assert AncestorAt(s, c, 0) == Some(c);
      AncestorDefinedBelow(s, c, 1, n);
      AncestorDefinedBelow(s, c, 0, n);
      var p := AncestorAt(s, c, 1).value;
      AncestorCompose(s, c, p, 1, n - 1);
      if n > 1 {
        AncestorDefinedBelow(s, c, 1, n);
      }
      assert NsAdmissible(s, c) && p in s.conceptTypes;
      if s.conceptTypes[c].ns.None? {
        NsInherited(s, c, p);
      } else {
        assert NearestNsAt(s, c, 0);
        NsOfNearest(s, c, 0);
      }
      SubtypesShareDomainAt(s, p, a, n - 1);
    }
  }

  lemma SubtypesShareDomain(s: Schema, c: string, a: string)
    requires NamespacesOk(s) && a in s.conceptTypes && Inherits(s, c, a)
    ensures NsOf(s, c) == NsOf(s, a)
  {
    var n: nat :| AncestorAt(s, c, n) == Some(a);
    SubtypesShareDomainAt(s, c, a, n);
  }

  // ---------- edges ----------

  ghost predicate EdgeAllowed(s: Schema, relation: string, sourceType: string, targetType: string) {
    && relation in s.relationTypes
    && Inherits(s, sourceType, s.relationTypes[relation].domain)
    && Inherits(s, targetType, s.relationTypes[relation].range)
  }

  method ValidateEdge(s: Schema, relation: string, sourceType: string, targetType: string) returns (r: Result<()>)
    ensures r.Ok? <==> EdgeAllowed(s, relation, sourceType, targetType)
    ensures r.Err? && relation in s.relationTypes ==> r.error == SchemaViolation(relation)
    ensures r.Err? && relation !in s.relationTypes ==> r.error == UnknownRelationType(relation)
  {
    if relation !in s.relationTypes { return Err(UnknownRelationType(relation)); }
    var rt := s.relationTypes[relation];
    var sourceOk := IsSubtype(s, sourceType, rt.domain);
    var targetOk := IsSubtype(s, targetType, rt.range);
    if !sourceOk || !targetOk { return Err(SchemaViolation(relation)); }
    return Ok(());
  }

  /** `ns_of_relation_type`: the two domains a relation is routed by. */
  ghost function NsOfRelationType(s: Schema, name: string): (string, string)
    requires name in s.relationTypes
  {
    (NsOf(s, s.relationTypes[name].domain), NsOf(s, s.relationTypes[name].range))
  }

  /** A relation is routable before its endpoints are inspected: every edge
      the schema accepts has its endpoints in the two domains of its type. */
  lemma EdgeRouting(s: Schema, relation: string, sourceType: string, targetType: string)
    requires NamespacesOk(s) && EdgeAllowed(s, relation, sourceType, targetType)
    requires s.relationTypes[relation].domain in s.conceptTypes && s.relationTypes[relation].range in s.conceptTypes
    ensures NsOfRelationType(s, relation) == (NsOf(s, sourceType), NsOf(s, targetType))
  {
    SubtypesShareDomain(s, sourceType, s.relationTypes[relation].domain);
    SubtypesShareDomain(s, targetType, s.relationTypes[relation].range);
  }

  // ---------- declarations ----------

  /** Known types that name `ct` as disjoint while `ct` does not name them. */
  function BackEdges(s: Schema, ct: ConceptType): set<string> {
    set o | o in s.conceptTypes && ct.name in s.conceptTypes[o].disjointWith && o !in ct.disjointWith
  }

  ghost function Completed(s: Schema, ct: ConceptType): ConceptType {
    StringOrder();
    ct.(disjointWith := ct.disjointWith + Ascending(StringLt, BackEdges(s, ct)))
  }

  /** `add_concept_type`: back-edges are pulled in (in name order where the
      program takes hash order), forward edges pushed to the siblings. */
  ghost function AddedConceptType(s: Schema, ct: ConceptType): Schema {
    var full := Completed(s, ct);
    s.(conceptTypes := PushToSiblings(s.conceptTypes[ct.name := full], full))
  }

  function PushToSiblings(types: map<string, ConceptType>, full: ConceptType): map<string, ConceptType> {
    map o | o in types ::
      if o in full.disjointWith && full.name !in types[o].disjointWith
      then types[o].(disjointWith := types[o].disjointWith + [full.name])
      else types[o]
  }

  ghost predicate DisjointSymmetric(s: Schema) {
    forall a, b :: a in s.conceptTypes && b in s.conceptTypes ==>
      (b in s.conceptTypes[a].disjointWith <==> a in s.conceptTypes[b].disjointWith)
  }

  /** Declaring a type keeps disjointness symmetric over the known types. */
  lemma AddKeepsDisjointSymmetric(s: Schema, ct: ConceptType)
    requires DisjointSymmetric(s)
    ensures DisjointSymmetric(AddedConceptType(s, ct))
    ensures AddedConceptType(s, ct).conceptTypes.Keys == s.conceptTypes.Keys + {ct.name}
  {
    StringOrder();
    AscendingMembers(StringLt, BackEdges(s, ct));
    var full := Completed(s, ct);
    var t := AddedConceptType(s, ct).conceptTypes;
    forall a, b | a in t && b in t ensures b in t[a].disjointWith ==> a in t[b].disjointWith {
      if b in t[a].disjointWith {
        if a == ct.name && b != ct.name {
          assert b in full.disjointWith;
        } else if a != ct.name && b == ct.name {
          assert ct.name in s.conceptTypes[a].disjointWith || a in full.disjointWith;
        } else if a != ct.name {
          assert b in s.conceptTypes[a].disjointWith;
        }
      }
    }
  }

  /** `merged_concept_type`: the declaration completed with what the
      registered type says and the declaration leaves out. */
  function MergedConceptType(s: Schema, decl: ConceptType): ConceptType {
    if decl.name !in s.conceptTypes then decl else
    var e := s.conceptTypes[decl.name];
    ConceptType(
      decl.name,
      if decl.properties.None? then e.properties else decl.properties,
      if decl.parent.None? then e.parent else decl.parent,
      if decl.description == "" then e.description else decl.description,
      if decl.required == [] then e.required else decl.required,
      if decl.disjointWith == [] then e.disjointWith else decl.disjointWith,
      if decl.ns.None? then e.ns else decl.ns)
  }

  predicate DeclChangesNothing(s: Schema, decl: ConceptType) {
    decl.name in s.conceptTypes && s.conceptTypes[decl.name] == MergedConceptType(s, decl)
  }

  ghost function MergedSchema(s: Schema, decl: ConceptType): Schema {
    if DeclChangesNothing(s, decl) then s else AddedConceptType(s, MergedConceptType(s, decl))
  }

  function Mentioned<T(==)>(blank: T, declared: T, registered: T): T { if declared == blank then registered else declared }

  /** What a declaration leaves of its type: what it mentions, and for the rest
      what was registered. */
  lemma DeclarationKeeps(s: Schema, decl: ConceptType)
    ensures decl.name in MergedSchema(s, decl).conceptTypes
    ensures var m := MergedSchema(s, decl).conceptTypes[decl.name];
      if decl.name in s.conceptTypes then
        var e := s.conceptTypes[decl.name];
        && m.parent == Mentioned(None, decl.parent, e.parent) && m.ns == Mentioned(None, decl.ns, e.ns)
        && m.properties == Mentioned(None, decl.properties, e.properties) && m.required == Mentioned([], decl.required, e.required)
        && m.description == Mentioned("", decl.description, e.description) && m.name == decl.name
      else m == decl.(disjointWith := m.disjointWith)
    ensures MergedSchema(s, decl).relationTypes == s.relationTypes
  {
  }

  /** And of disjointness: the type is disjoint from those it mentions, or was,
      and from those that named it; every other known type is as it was, but
      that it names the declared type now if that names it. */
  lemma DeclarationDisjoint(s: Schema, decl: ConceptType, o: string)
    requires !DeclChangesNothing(s, decl)
    ensures var t := MergedSchema(s, decl).conceptTypes;
      && t.Keys == s.conceptTypes.Keys + {decl.name}
      && (o in t[decl.name].disjointWith <==>
           || o in Mentioned([], decl.disjointWith, if decl.name in s.conceptTypes then s.conceptTypes[decl.name].disjointWith else [])
           || (o in s.conceptTypes && decl.name in s.conceptTypes[o].disjointWith)
           || (o == decl.name && o in t[o].disjointWith))
      && (o in s.conceptTypes && o != decl.name ==>
           t[o] == s.conceptTypes[o].(disjointWith := s.conceptTypes[o].disjointWith +
             if o in t[decl.name].disjointWith && decl.name !in s.conceptTypes[o].disjointWith then [decl.name] else []))
  {
    StringOrder();
    AscendingMembers(StringLt, BackEdges(s, MergedConceptType(s, decl)));
  }

  /** A declaration that changed the schema is a no-op when repeated exactly
      when it names no disjoint type, or no registered type had to be pulled
      into its list: otherwise the stored list is longer than the declared
      one and the repeat is taken for a change. */
  lemma RepeatedDeclaration(s: Schema, decl: ConceptType)
    requires !DeclChangesNothing(s, decl)
    ensures DeclChangesNothing(MergedSchema(s, decl), decl) <==>
      (decl.disjointWith == [] || BackEdges(s, MergedConceptType(s, decl)) == {})
  {
    var m := MergedConceptType(s, decl);
    var t := MergedSchema(s, decl);
    AddedStoresCompleted(s, m);
    var full := t.conceptTypes[decl.name];
    StringOrder();
    var pulled := Ascending(StringLt, BackEdges(s, m));
    AscendingMembers(StringLt, BackEdges(s, m));
    assert full == m.(disjointWith := m.disjointWith + pulled);
    assert MergedConceptType(t, decl) == full.(disjointWith := if decl.disjointWith == [] then full.disjointWith else m.disjointWith);
    assert |pulled| == |BackEdges(s, m)|;
  }

  lemma AddedStoresCompleted(s: Schema, ct: ConceptType)
    ensures ct.name in AddedConceptType(s, ct).conceptTypes
    ensures AddedConceptType(s, ct).conceptTypes[ct.name] == Completed(s, ct)
  {
  }

  /** The second loop of `add_concept_type`. */
  method PushBack(types: map<string, ConceptType>, full: ConceptType) returns (r: map<string, ConceptType>)
    ensures r == PushToSiblings(types, full)
  {
    r := types;
    var siblings := full.disjointWith;
    for i := 0 to |siblings|
      invariant r.Keys == types.Keys
      invariant forall o :: o in types && o in siblings[..i] ==> r[o] == PushToSiblings(types, full)[o]
      invariant forall o :: o in types && o !in siblings[..i] ==> r[o] == types[o]
    {
      var o := siblings[i];
      assert siblings[..i + 1] == siblings[..i] + [o];
      if o in r && full.name !in r[o].disjointWith {
        r := r[o := r[o].(disjointWith := r[o].disjointWith + [full.name])];
      }
    }
    assert siblings[..|siblings|] == siblings;
  }

  // ---------- the ontology object ----------

  /** The schema with its lazily filled descendants cache. */
  class Ontology {
    var schema: Schema
    var cache: Option<map<string, seq<string>>>

    ghost predicate Valid()
      reads this
    {
      WellKeyed(schema) && (cache.Some? ==> DescendantsIndex(schema, cache.value))
    }

    constructor ()
      ensures Valid() && schema == EMPTY_SCHEMA
    {
      schema, cache := EMPTY_SCHEMA, None;
    }

    /** The copy that `extend_ontology` hands to its closure. */
    constructor Clone(from: Schema)
      requires WellKeyed(from)
      ensures Valid() && schema == from
    {
      schema, cache := from, None;
    }

    method AddConceptType(ct: ConceptType)
      requires Valid()
      modifies this
      ensures Valid() && schema == AddedConceptType(old(schema), ct)
      ensures old(DisjointSymmetric(schema)) ==> DisjointSymmetric(schema)
    {
      if DisjointSymmetric(schema) { AddKeepsDisjointSymmetric(schema, ct); }
      StringOrder();
      var pulled := InOrder(StringLt, BackEdges(schema, ct));
      var full := ct.(disjointWith := ct.disjointWith + pulled);
      var types := PushBack(schema.conceptTypes[ct.name := full], full);
      schema := schema.(conceptTypes := types);
      cache := None;
    }

    /** Returns `false` when the declaration changes nothing. */
    method MergeConceptType(decl: ConceptType) returns (changed: bool)
      requires Valid()
      modifies this
      ensures Valid() && schema == MergedSchema(old(schema), decl)
      ensures changed <==> !DeclChangesNothing(old(schema), decl)
    {
      var merged := MergedConceptType(schema, decl);
      if decl.name in schema.conceptTypes && schema.conceptTypes[decl.name] == merged { return false; }
      AddConceptType(merged);
      return true;
    }

    method AddRelationType(rt: RelationType) returns (r: Result<()>)
      requires Valid()
      modifies this
      ensures Valid()
      ensures r.Ok? <==> RelationDeclarable(old(schema), rt)
      ensures schema == if r.Ok? then old(schema).(relationTypes := old(schema).relationTypes[rt.name := rt]) else old(schema)
    {
      if rt.domain !in schema.conceptTypes { return Err(UnknownConceptType(rt.domain)); }
      if rt.range !in schema.conceptTypes { return Err(UnknownConceptType(rt.range)); }
      if rt.inverseOf.Some? && (rt.inverseOf.value == "" || (rt.inverseOf.value == rt.name && !rt.symmetric)) {
        return Err(UnknownRelationType(rt.inverseOf.value));
      }
      schema := schema.(relationTypes := schema.relationTypes[rt.name := rt]);
      cache := None;
      return Ok(());
    }

    /** Served from the cache, which is filled on the first call. */
    method DescendantsOf(ancestor: string) returns (r: seq<string>)
      requires Valid()
      modifies this`cache
      ensures Valid() && r == Descendants(schema, ancestor)
    {
      if cache.None? {
        var index := BuildDescendantsIndex(schema);
        cache := Some(index);
      }
      r := if ancestor in cache.value then cache.value[ancestor] else [];
    }
  }

  predicate RelationDeclarable(s: Schema, rt: RelationType) {
    && rt.domain in s.conceptTypes && rt.range in s.conceptTypes
    && (rt.inverseOf.Some? ==> rt.inverseOf.value != "" && (rt.inverseOf.value == rt.name ==> rt.symmetric))
  }
}
