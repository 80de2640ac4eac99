/** Cutting a document into pieces a language model can answer
    (crates/rag/src/extract.rs): greedy packing of paragraphs and lines within
    a budget, and the bisection of a piece whose answer was cut off. White
    space may be dropped at a cut; no other character may. */
module Chunking {
  import opened Collections

  /** `char::is_whitespace`. */
  predicate White(c: char) {
    '\U{0009}' <= c <= '\U{000D}' || c == ' ' || c == '\U{0085}' || c == '\U{00A0}' || c == '\U{1680}' ||
    '\U{2000}' <= c <= '\U{200A}' || c == '\U{2028}' || c == '\U{2029}' || c == '\U{202F}' || c == '\U{205F}' || c == '\U{3000}'
  }

  /** `char::is_whitespace`, by code point. */
  lemma WhiteExactly(c: char)
    ensures White(c) <==>
      9 <= c as int <= 13 || 8192 <= c as int <= 8202 || c as int in {32, 133, 160, 5760, 8232, 8233, 8239, 8287, 12288}
  {
  }

  /** The characters that are not white space, in order. */
  function Solid(s: string): string {
    if s == "" then "" else (if White(s[0]) then "" else [s[0]]) + Solid(s[1..])
  }

  lemma {:induction false} SolidConcat(a: string, b: string)
    ensures Solid(a + b) == Solid(a) + Solid(b)
  {
    if a == "" {
      assert a + b == b;
    } else {
      assert (a + b)[1..] == a[1..] + b;
      SolidConcat(a[1..], b);
    }
  }

  function Spell(parts: seq<string>): string {
    if parts == [] then "" else Solid(parts[0]) + Spell(parts[1..])
  }

  lemma {:induction false} SpellConcat(a: seq<string>, b: seq<string>)
    ensures Spell(a + b) == Spell(a) + Spell(b)
  {
    if a == [] {
      assert a + b == b;
    } else {
      assert (a + b)[1..] == a[1..] + b;
      SpellConcat(a[1..], b);
    }
  }

  lemma SpellSnoc(a: seq<string>, x: string)
    ensures Spell(a + [x]) == Spell(a) + Solid(x)
  {
    SpellConcat(a, [x]);
    assert Spell([x]) == Solid(x) + Spell([]);
  }

  // ---------- splitting on a separator ----------

  /** `str::split`, with the text read so far of the current piece. */
  function SplitFrom(cur: string, rest: string, sep: string): (r: seq<string>)
    requires sep != ""
    ensures r != []
    decreases |rest|
  {
    if rest == "" then [cur]
    else if sep <= rest then [cur] + SplitFrom("", rest[|sep|..], sep)
    else SplitFrom(cur + [rest[0]], rest[1..], sep)
  }

  function Split(text: string, sep: string): (r: seq<string>)
    requires sep != ""
    ensures r != []
  {
    SplitFrom("", text, sep)
  }

  function Join(parts: seq<string>, sep: string): string
    requires parts != []
  {
    if |parts| == 1 then parts[0] else parts[0] + sep + Join(parts[1..], sep)
  }

  lemma {:induction false} SplitFromJoins(cur: string, rest: string, sep: string)
    requires sep != ""
    ensures Join(SplitFrom(cur, rest, sep), sep) == cur + rest
    decreases |rest|
  {
    if rest == "" {
    } else if sep <= rest {
      SplitFromJoins("", rest[|sep|..], sep);
      var more := SplitFrom("", rest[|sep|..], sep);
      assert ([cur] + more)[1..] == more && rest == sep + rest[|sep|..];
      assert cur + sep + rest[|sep|..] == cur + rest;
    } else {
      SplitFromJoins(cur + [rest[0]], rest[1..], sep);
      assert cur + [rest[0]] + rest[1..] == cur + rest;
    }
  }

  lemma {:induction false} JoinSpells(parts: seq<string>, sep: string)
    requires parts != [] && Solid(sep) == ""
    ensures Solid(Join(parts, sep)) == Spell(parts)
  {
    if |parts| == 1 {
      assert parts == [] + [parts[0]];
      SpellSnoc([], parts[0]);
    } else {
      JoinSpells(parts[1..], sep);
      SolidConcat(parts[0] + sep, Join(parts[1..], sep));
      SolidConcat(parts[0], sep);
    }
  }

  lemma SplitSpells(text: string, sep: string)
    requires sep != "" && Solid(sep) == ""
    ensures Spell(Split(text, sep)) == Solid(text)
  {
    SplitFromJoins("", text, sep);
    JoinSpells(Split(text, sep), sep);
    assert "" + text == text;
  }

  // ---------- greedy packing ----------

  function Limit(budget: nat): nat { if budget == 0 then 1 else budget }

  /** No piece is empty or over budget, and no two neighbours would have
      fitted together. */
  predicate WellPacked(chunks: seq<string>, gap: nat, budget: nat) {
    && (forall c :: c in chunks ==> 1 <= |c| <= Limit(budget))
    && (forall i :: 0 <= i < |chunks| - 1 ==> |chunks[i]| + gap + |chunks[i + 1]| > budget)
  }

  ghost predicate Packing(out: seq<string>, cur: string, gap: nat, budget: nat, spelled: string) {
    && WellPacked(out, gap, budget) && |cur| <= Limit(budget)
    && (out != [] ==> |out[|out| - 1]| + gap + |cur| > budget)
    && Spell(out) + Solid(cur) == spelled
  }

  lemma Flushed(out: seq<string>, cur: string, gap: nat, budget: nat, spelled: string)
    requires Packing(out, cur, gap, budget, spelled) && cur != ""
    ensures WellPacked(out + [cur], gap, budget) && Spell(out + [cur]) == spelled
  {
    SpellSnoc(out, cur);
  }

  lemma Joined(cur: string, sep: string, piece: string, before: string)
    requires Solid(sep) == ""
    ensures before + Solid(cur + sep + piece) == before + Solid(cur) + Solid(piece)
  {
    SolidConcat(cur, sep);
    SolidConcat(cur + sep, piece);
    ConcatAssoc(before, Solid(cur), Solid(piece));
  }

  lemma Extended(out: seq<string>, cur: string, piece: string, sep: string, budget: nat, spelled: string)
    requires Packing(out, cur, |sep|, budget, spelled) && |cur| + |piece| + |sep| <= budget && Solid(sep) == ""
    ensures Packing(out, cur + sep + piece, |sep|, budget, spelled + Solid(piece))
  {
    hide Solid, Spell, WellPacked;
    Joined(cur, sep, piece, Spell(out));
  }

  lemma NothingYet(out: seq<string>, gap: nat, budget: nat, spelled: string)
    requires Packing(out, "", gap, budget, spelled)
    ensures Spell(out) == spelled
  {
    assert Spell(out) + "" == Spell(out);
  }

  lemma Begun(out: seq<string>, piece: string, gap: nat, budget: nat, spelled: string)
    requires WellPacked(out, gap, budget) && Spell(out) == spelled && |piece| <= Limit(budget)
    requires out != [] ==> |out[|out| - 1]| + gap + |piece| > budget
    ensures Packing(out, piece, gap, budget, spelled + Solid(piece))
  {
  }

  /** Start a new chunk when the piece does not fit in the current one. */
  method Pack(out: seq<string>, cur: string, piece: string, sep: string, budget: nat, ghost spelled: string)
    returns (chunks: seq<string>, tail: string)
    requires Packing(out, cur, |sep|, budget, spelled) && |piece| <= Limit(budget) && Solid(sep) == ""
    ensures Packing(chunks, tail, |sep|, budget, spelled + Solid(piece))
  {
    hide WellPacked, Solid, Spell;
    chunks, tail := out, cur;
    if |tail| + |piece| + |sep| > budget && tail != "" {
      Flushed(chunks, tail, |sep|, budget, spelled);
      chunks, tail := chunks + [tail], "";
      Begun(chunks, piece, |sep|, budget, spelled);
    } else if tail == "" {
      NothingYet(out, |sep|, budget, spelled);
      Begun(chunks, piece, |sep|, budget, spelled);
    } else {
      Extended(chunks, tail, piece, sep, budget, spelled);
    }
    if tail != "" { tail := tail + sep; }
    assert tail == "" ==> tail + piece == piece;
    tail := tail + piece;
  }

  method Finish(out: seq<string>, cur: string, gap: nat, budget: nat, ghost spelled: string) returns (chunks: seq<string>)
    requires Packing(out, cur, gap, budget, spelled)
    ensures WellPacked(chunks, gap, budget) && Spell(chunks) == spelled
  {
    chunks := out;
    if cur != "" {
      SpellSnoc(out, cur);
      chunks := chunks + [cur];
    }
  }

  function Blocks(s: string, n: nat): (r: seq<string>)
    requires n > 0
    ensures forall b :: b in r ==> |b| <= n
  {
    if |s| <= n then [s] else [s[..n]] + Blocks(s[n..], n)
  }

  lemma {:induction false} BlocksSpell(s: string, n: nat)
    requires n > 0
    ensures Spell(Blocks(s, n)) == Solid(s)
  {
    hide Solid;
    if |s| <= n {
      SpellSnoc([], s);
      assert [] + [s] == [s];
    } else {
      BlocksSpell(s[n..], n);
      SolidConcat(s[..n], s[n..]);
      assert s == s[..n] + s[n..];
      SpellConcat([s[..n]], Blocks(s[n..], n));
      SpellSnoc([], s[..n]);
      assert [] + [s[..n]] == [s[..n]];
    }
  }

  /** A single line over budget is cut at the budget. */
  function HardSplit(line: string, budget: nat): (r: seq<string>)
    ensures forall b :: b in r ==> |b| <= Limit(budget)
  {
    if |line| <= budget then [line] else Blocks(line, Limit(budget))
  }

  lemma HardSplitSpells(line: string, budget: nat)
    ensures Spell(HardSplit(line, budget)) == Solid(line)
  {
    BlocksSpell(line, Limit(budget));
  }

  lemma SpelledMore(spelled: string, pieces: seq<string>, i: nat)
    requires i < |pieces|
    ensures pieces[i] in pieces
    ensures spelled + Spell(pieces[..i]) + Solid(pieces[i]) == spelled + Spell(pieces[..i + 1])
  {
    assert pieces[..i + 1] == pieces[..i] + [pieces[i]];
    SpellSnoc(pieces[..i], pieces[i]);
    ConcatAssoc(spelled, Spell(pieces[..i]), Solid(pieces[i]));
  }

  /** Pack several pieces in turn. */
  method PackAll(out: seq<string>, cur: string, pieces: seq<string>, sep: string, budget: nat, ghost spelled: string)
    returns (chunks: seq<string>, tail: string)
    requires Packing(out, cur, |sep|, budget, spelled) && Solid(sep) == ""
    requires forall p :: p in pieces ==> |p| <= Limit(budget)
    ensures Packing(chunks, tail, |sep|, budget, spelled + Spell(pieces))
  {
    chunks, tail := out, cur;
    assert spelled + Spell([]) == spelled;
    for i := 0 to |pieces|
      invariant Packing(chunks, tail, |sep|, budget, spelled + Spell(pieces[..i]))
    {
      SpelledMore(spelled, pieces, i);
      chunks, tail := Pack(chunks, tail, pieces[i], sep, budget, spelled + Spell(pieces[..i]));
    }
    assert pieces[..|pieces|] == pieces;
  }

  lemma BreakIsBlank()
    ensures Solid("\n") == ""
  {
  }

  lemma NothingPacked(gap: nat, budget: nat)
    ensures Packing([], "", gap, budget, Spell([]))
  {
  }

  lemma OnePiece(para: string)
    ensures Spell([para]) == Solid(para)
  {
    SpellSnoc([], para);
    assert [] + [para] == [para];
  }

  /** A paragraph over budget is cut at line breaks. */
  method SplitOversize(para: string, budget: nat) returns (pieces: seq<string>)
    ensures |para| <= budget ==> pieces == [para]
    ensures |para| > budget ==> WellPacked(pieces, 1, budget)
    ensures forall p :: p in pieces ==> |p| <= Limit(budget)
    ensures Spell(pieces) == Solid(para)
  {
    hide Solid, Spell, Split, HardSplit, Packing, WellPacked;
    if |para| <= budget {
      OnePiece(para);
      return [para];
    }
    BreakIsBlank();
    NothingPacked(1, budget);
    var lines := Split(para, "\n");
    SplitSpells(para, "\n");
    var out, cur := [], "";
    for i := 0 to |lines|
      invariant Packing(out, cur, 1, budget, Spell(lines[..i]))
    {
      assert lines[..i + 1] == lines[..i] + [lines[i]];
      SpellSnoc(lines[..i], lines[i]);
      HardSplitSpells(lines[i], budget);
      out, cur := PackAll(out, cur, HardSplit(lines[i], budget), "\n", budget, Spell(lines[..i]));
    }
    assert lines[..|lines|] == lines;
    pieces := Finish(out, cur, 1, budget, Solid(para));
  }

  /** A document that fits is one chunk; otherwise its chunks fit the budget,
      are as few as greedy packing makes them, and spell the document. */
  method ChunkText(text: string, budget: nat) returns (chunks: seq<string>)
    ensures |text| <= budget ==> chunks == [text]
    ensures |text| > budget ==> WellPacked(chunks, 2, budget)
    ensures forall c :: c in chunks ==> |c| <= Limit(budget)
    ensures Spell(chunks) == Solid(text)
  {
    if |text| <= budget {
      SpellSnoc([], text);
      assert [] + [text] == [text];
      return [text];
    }
    assert Solid("\n\n") == "" by { assert "\n\n" == "\n" + "\n"; SolidConcat("\n", "\n"); }
    var paras := Split(text, "\n\n");
    SplitSpells(text, "\n\n");
    var out, cur := [], "";
    for i := 0 to |paras|
      invariant Packing(out, cur, 2, budget, Spell(paras[..i]))
    {
      assert paras[..i + 1] == paras[..i] + [paras[i]];
      SpellSnoc(paras[..i], paras[i]);
      var pieces := SplitOversize(paras[i], budget);
      out, cur := PackAll(out, cur, pieces, "\n\n", budget, Spell(paras[..i]));
    }
    assert paras[..|paras|] == paras;
    chunks := Finish(out, cur, 2, budget, Solid(text));
  }

  // ---------- trimming ----------

  function TrimEnd(s: string): string {
    if s != "" && White(s[|s| - 1]) then TrimEnd(s[..|s| - 1]) else s
  }

  function TrimStart(s: string): string {
    if s != "" && White(s[0]) then TrimStart(s[1..]) else s
  }

  function Trim(s: string): string { TrimEnd(TrimStart(s)) }

  lemma {:induction false} TrimEndOk(s: string)
    ensures TrimEnd(s) <= s && Solid(TrimEnd(s)) == Solid(s)
  {
    if s != "" && White(s[|s| - 1]) {
      var l := |s| - 1;
      TrimEndOk(s[..l]);
      SolidConcat(s[..l], [s[l]]);
      assert s == s[..l] + [s[l]];
    }
  }

  lemma {:induction false} TrimStartOk(s: string)
    ensures |TrimStart(s)| <= |s| && Solid(TrimStart(s)) == Solid(s)
  {
    if s != "" && White(s[0]) { TrimStartOk(s[1..]); }
  }

  // ---------- the cut nearest the middle ----------

  /** Bytes of a character in UTF-8. */
  function Utf8(c: char): nat { if c < '\U{0080}' then 1 else if c < '\U{0800}' then 2 else if c < '\U{10000}' then 3 else 4 }

  /** The table of section 3 of RFC 3629. */
  lemma Utf8Exactly(c: char)
    ensures Utf8(c) == 1 <==> c as int <= 127
    ensures Utf8(c) == 2 <==> 128 <= c as int <= 2047
    ensures Utf8(c) == 3 <==> 2048 <= c as int <= 65535
    ensures Utf8(c) == 4 <==> 65536 <= c as int <= 1114111
  {
  }

  function Bytes(s: string): nat { if s == "" then 0 else Utf8(s[0]) + Bytes(s[1..]) }

  lemma {:induction false} BytesConcat(a: string, b: string)
    ensures Bytes(a + b) == Bytes(a) + Bytes(b)
  {
    if a == "" {
      assert a + b == b;
    } else {
      assert (a + b)[1..] == a[1..] + b;
      BytesConcat(a[1..], b);
    }
  }

  /** `rfind('\n')`. */
  function LastBreak(s: string): (r: Option<nat>)
    ensures r.None? ==> '\n' !in s
    ensures r.Some? ==> r.value < |s| && s[r.value] == '\n' && forall j :: r.value < j < |s| ==> s[j] != '\n'
  {
    if s == "" then None else if s[|s| - 1] == '\n' then Some(|s| - 1) else LastBreak(s[..|s| - 1])
  }

  /** `find('\n')`. */
  function FirstBreak(s: string): (r: Option<nat>)
    ensures r.None? ==> '\n' !in s
    ensures r.Some? ==> r.value < |s| && s[r.value] == '\n' && forall j :: 0 <= j < r.value ==> s[j] != '\n'
  {
    if s == "" then None else if s[0] == '\n' then Some(0) else
    match FirstBreak(s[1..]) case None => None case Some(i) => Some(i + 1)
  }

  /** Bytes between two positions. */
  function Gap(s: string, i: nat, j: nat): nat
    requires i <= |s| && j <= |s|
  {
    if i < j then Bytes(s[i..j]) else Bytes(s[j..i])
  }

  /** The line break nearest the middle in bytes, the earlier of two as near;
      the middle itself when there is no break. */
  predicate NearestBreak(s: string, cut: nat) {
    cut <= |s| &&
    if '\n' !in s then cut == |s| / 2 else
    cut < |s| && s[cut] == '\n' && forall k :: 0 <= k < |s| && s[k] == '\n' && k != cut ==> Nearer(s, cut, k)
  }

  predicate Nearer(s: string, i: nat, k: nat)
    requires i < |s| && k < |s|
  {
    Gap(s, i, |s| / 2) < Gap(s, k, |s| / 2) || (Gap(s, i, |s| / 2) == Gap(s, k, |s| / 2) && i < k)
  }

  lemma GapGrows(s: string, i: nat, j: nat, k: nat)
    requires i < j <= k <= |s| || k <= j < i <= |s|
    ensures Gap(s, i, k) > Gap(s, j, k)
  {
    if i < j {
      assert s[i..k] == s[i..j] + s[j..k];
      BytesConcat(s[i..j], s[j..k]);
    } else {
      assert s[k..i] == s[k..j] + s[j..i];
      BytesConcat(s[k..j], s[j..i]);
    }
  }

  function Cut(s: string): (cut: nat)
    ensures cut <= |s|
  {
    var mid := |s| / 2;
    match (LastBreak(s[..mid]), FirstBreak(s[mid..]))
    case (Some(b), Some(a)) => if Bytes(s[b..mid]) <= Bytes(s[mid..mid + a]) then b else mid + a
    case (Some(b), None) => b
    case (None, Some(a)) => mid + a
    case (None, None) => mid
  }

  lemma CutIsNearest(s: string)
    ensures NearestBreak(s, Cut(s))
  {
    var mid, cut := |s| / 2, Cut(s);
    var before, after := LastBreak(s[..mid]), FirstBreak(s[mid..]);
    assert s == s[..mid] + s[mid..];
    if before.Some? || after.Some? {
      assert cut < |s| && s[cut] == '\n';
      forall k | 0 <= k < |s| && s[k] == '\n' && k != cut ensures Nearer(s, cut, k) { OtherBreak(s, k); }
    }
  }

  lemma OtherBreak(s: string, k: nat)
    requires k < |s| && s[k] == '\n' && k != Cut(s) && Cut(s) < |s|
    ensures Nearer(s, Cut(s), k)
  {
    var mid := |s| / 2;
    if k < mid {
      assert s[..mid][k] == '\n';
      var b := LastBreak(s[..mid]).value;
      assert k <= b;
      if k < b { GapGrows(s, k, b, mid); }
    } else {
      assert s[mid..][k - mid] == '\n';
      var a := FirstBreak(s[mid..]).value;
      assert mid + a <= k;
      if mid + a < k { GapGrows(s, k, mid + a, mid); }
    }
  }

  const MIN_SPLIT_CHARS: nat := 400

  /** Both sides of the cut, trimmed; none when the piece is small or one side
      is blank. */
  function SplitInHalf(piece: string): Option<(string, string)> {
    if |piece| < MIN_SPLIT_CHARS then None else
    var a, b := TrimEnd(piece[..Cut(piece)]), TrimStart(piece[Cut(piece)..]);
    if a == "" || b == "" then None else Some((a, b))
  }

  lemma Parts(s: string, cut: nat)
    requires cut <= |s|
    ensures s[..cut] + s[cut..] == s && |s[..cut]| + |s[cut..]| == |s|
  {
  }

  lemma TrimShortens(s: string)
    ensures |TrimEnd(s)| <= |s| && |TrimStart(s)| <= |s|
    ensures Solid(TrimEnd(s)) == Solid(s) && Solid(TrimStart(s)) == Solid(s)
  {
    TrimEndOk(s);
    TrimStartOk(s);
  }

  lemma TrimmedParts(s: string, l: string, r: string)
    requires l + r == s && |l| + |r| == |s| && TrimEnd(l) != "" && TrimStart(r) != ""
    ensures 0 < |TrimEnd(l)| < |s| && 0 < |TrimStart(r)| < |s| && Solid(TrimEnd(l)) + Solid(TrimStart(r)) == Solid(s)
  {
    hide Solid, TrimEnd, TrimStart;
    TrimShortens(l);
    TrimShortens(r);
    SolidConcat(l, r);
  }

  /** Each half is strictly shorter, and the halves spell the piece. */
  lemma HalvesShrink(piece: string)
    requires SplitInHalf(piece).Some?
    ensures var (a, b) := SplitInHalf(piece).value;
      0 < |a| < |piece| && 0 < |b| < |piece| && Solid(a) + Solid(b) == Solid(piece)
  {
    hide Solid, Cut, TrimEnd, TrimStart;
    Parts(piece, Cut(piece));
    TrimmedParts(piece, piece[..Cut(piece)], piece[Cut(piece)..]);
  }

  lemma {:induction false} BlankTrims(s: string)
    ensures Solid(s) == "" <==> TrimEnd(s) == ""
    ensures Solid(s) == "" <==> TrimStart(s) == ""
  {
    TrimEndOk(s);
    TrimStartOk(s);
    EndIsSolid(s);
    StartIsSolid(s);
  }

  lemma {:induction false} EndIsSolid(s: string)
    ensures TrimEnd(s) != "" ==> Solid(TrimEnd(s)) != ""
  {
    if s != "" {
      var l := |s| - 1;
      if White(s[l]) { EndIsSolid(s[..l]); } else { SolidConcat(s[..l], [s[l]]); assert s == s[..l] + [s[l]]; assert Solid([s[l]]) == [s[l]]; }
    }
  }

  lemma {:induction false} StartIsSolid(s: string)
    ensures TrimStart(s) != "" ==> Solid(TrimStart(s)) != ""
  {
    if s != "" && White(s[0]) { StartIsSolid(s[1..]); }
  }

  /** A single line that ends in a line break is never halved, however long:
      the only break leaves nothing to the right. */
  lemma TrailingBreak(line: string)
    requires '\n' !in line && |line| >= MIN_SPLIT_CHARS
    ensures SplitInHalf(line + "\n").None?
  {
    var s := line + "\n";
    CutIsNearest(s);
    assert s[|line|] == '\n';
    assert Cut(s) == |line|;
    assert s[Cut(s)..] == "\n" && Solid("\n") == "";
    WhenUnsplittable(s);
  }

  /** When a piece cannot be halved: too small, or blank on one side of the
      break nearest its middle. */
  lemma WhenUnsplittable(piece: string)
    ensures SplitInHalf(piece).None? <==>
      |piece| < MIN_SPLIT_CHARS || Solid(piece[..Cut(piece)]) == "" || Solid(piece[Cut(piece)..]) == ""
  {
    BlankTrims(piece[..Cut(piece)]);
    BlankTrims(piece[Cut(piece)..]);
  }
}
