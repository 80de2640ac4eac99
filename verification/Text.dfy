/** Names: case folding, substring test, character trigrams and the
    code-point order used by the listings. */
module Text {
  import opened Collections

  /** `char::to_lowercase`: one character may fold to several. */
  function LowerChar(c: char): string {
    if 'A' <= c <= 'Z' || ('\U{00C0}' <= c <= '\U{00DE}' && c != '\U{00D7}') ||
       ('\U{0391}' <= c <= '\U{03A9}' && c != '\U{03A2}') || '\U{0410}' <= c <= '\U{042F}'
    then [(c as int + 32) as char]
    else if '\U{0400}' <= c <= '\U{040F}' then [(c as int + 80) as char]
    else if c == '\U{0130}' then ['i', '\U{0307}']
    else [c]
  }

  /** `str::to_lowercase`, context-free. */
  function Lower(s: string): string {
    if s == [] then [] else LowerChar(s[0]) + Lower(s[1..])
  }

  predicate Folded(s: string) {
    forall i :: 0 <= i < |s| ==> LowerChar(s[i]) == [s[i]]
  }

  lemma LowerCharFolded(c: char)
    ensures Folded(LowerChar(c))
  {
  }

  lemma {:induction false} LowerFolded(s: string)
    ensures Folded(Lower(s))
  {
    if s != [] {
      LowerCharFolded(s[0]);
      LowerFolded(s[1..]);
    }
  }

  lemma {:induction false} FoldedFixed(s: string)
    requires Folded(s)
    ensures Lower(s) == s
  {
    if s != [] {
      assert LowerChar(s[0]) == [s[0]];
      assert Folded(s[1..]) by {
        forall i | 0 <= i < |s[1..]| ensures LowerChar(s[1..][i]) == [s[1..][i]] {
          assert s[1..][i] == s[i + 1];
        }
      }
      FoldedFixed(s[1..]);
    }
  }

  // ---------- substrings and trigrams ----------

  predicate OccursAt(s: string, needle: string, i: nat) {
    i + |needle| <= |s| && s[i..i + |needle|] == needle
  }

  ghost predicate Contains(s: string, needle: string) {
    exists i: nat :: OccursAt(s, needle, i)
  }

  /** `str::contains`. */
  method FindSubstring(s: string, needle: string) returns (r: bool)
    ensures r <==> Contains(s, needle)
  {
    var i := 0;
    while i + |needle| <= |s|
      invariant forall j: nat :: j < i ==> !OccursAt(s, needle, j)
    {
      if s[i..i + |needle|] == needle {
        assert OccursAt(s, needle, i);
        return true;
      }
      i := i + 1;
    }
    return false;
  }

  /** The window of three characters that starts at `i`. */
  function Window(s: string, i: nat): string
    requires i + 3 <= |s|
  {
    s[i..i + 3]
  }

  function Windows(s: string): set<string> {
    set i: nat | i + 3 <= |s| :: Window(s, i)
  }

  /** The trigram set of a name: every window of three characters of its
      lowercase form. */
  function Trigrams(s: string): set<string> {
    Windows(Lower(s))
  }

  /** A name whose lowercase form contains the needle has every trigram of
      the needle: the inverted index loses no match. */
  lemma ContainsTrigrams(name: string, needle: string)
    requires Contains(Lower(name), needle)
    ensures Trigrams(needle) <= Trigrams(name)
  {
    var l := Lower(name);
    var k: nat :| OccursAt(l, needle, k);
    LowerFolded(name);
    forall i | 0 <= i < |needle| ensures LowerChar(needle[i]) == [needle[i]] {
      assert needle[i] == l[k..k + |needle|][i] == l[k + i];
    }
    FoldedFixed(needle);
    forall g | g in Windows(needle) ensures g in Windows(l) {
      var i: nat :| i + 3 <= |needle| && g == Window(needle, i);
      SliceOfSlice(l, k, k + |needle|, i, i + 3);
      assert g == Window(l, k + i);
    }
  }

  // ---------- order ----------

  predicate StringLt(a: string, b: string) {
    b != [] && (a == [] || a[0] < b[0] || (a[0] == b[0] && StringLt(a[1..], b[1..])))
  }

  lemma {:induction false} StringLtIrreflexive(a: string)
    ensures !StringLt(a, a)
  {
    if a != [] { StringLtIrreflexive(a[1..]); }
  }

  lemma {:induction false} StringLtTransitive(a: string, b: string, c: string)
    requires StringLt(a, b) && StringLt(b, c)
    ensures StringLt(a, c)
  {
    if a != [] && a[0] == b[0] == c[0] { StringLtTransitive(a[1..], b[1..], c[1..]); }
  }

  lemma {:induction false} StringLtTotal(a: string, b: string)
    requires a != b
    ensures StringLt(a, b) || StringLt(b, a)
  {
    if a != [] && b != [] && a[0] == b[0] {
      assert a == [a[0]] + a[1..] && b == [b[0]] + b[1..];
      StringLtTotal(a[1..], b[1..]);
    }
  }

  /** The order of the listings: by the first character that differs, a proper
      prefix coming first. */
  lemma {:induction false} StringLtExactly(a: string, b: string)
    ensures StringLt(a, b) <==> exists k: nat :: k <= |a| && k < |b| && a[..k] == b[..k] && (k < |a| ==> a[k] < b[k])
  {
    if b != [] && a != [] && a[0] == b[0] {
      StringLtExactly(a[1..], b[1..]);
      if k: nat :| k <= |a[1..]| && k < |b[1..]| && a[1..][..k] == b[1..][..k] && (k < |a[1..]| ==> a[1..][k] < b[1..][k]) {
        assert a[..k + 1] == [a[0]] + a[1..][..k] && b[..k + 1] == [b[0]] + b[1..][..k];
      }
      if k: nat :| k <= |a| && k < |b| && a[..k] == b[..k] && (k < |a| ==> a[k] < b[k]) {
        assert k > 0;
        assert a[1..][..k - 1] == a[..k][1..] && b[1..][..k - 1] == b[..k][1..];
      }
    } else if b != [] {
      assert a[..0] == b[..0];
    }
  }

  lemma StringOrder()
    ensures StrictOrder(StringLt)
  {
    forall x ensures !StringLt(x, x) { StringLtIrreflexive(x); }
    forall x, y, z | StringLt(x, y) && StringLt(y, z) ensures StringLt(x, z) { StringLtTransitive(x, y, z); }
    forall x, y | x != y ensures StringLt(x, y) || StringLt(y, x) { StringLtTotal(x, y); }
  }
}
